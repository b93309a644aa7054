/** The orchestration of `cmd/main.go`: the multi-target batch loop of
    `runStaticAnalysis`, the target choice of `runLiveMonitoring`, and the
    menu loop of `main` over the lines read from standard input. Printing
    and writing the report are not modelled; the report prompt is reduced
    to whether it is shown and whether the answer asks for a save. */
module Cli {
  import opened Wrappers
  import opened Text
  import opened Config
  import opened Matcher
  import opened Sources
  import opened Batch
  import opened Watch
  import opened Seqs

  /** A target whose analysis failed, as logged. */
  datatype Failure = Failure(target: string, err: Error)

  /** The effect of `runStaticAnalysis`: the aggregated records, the targets
      logged as failed, and whether the save-report prompt is shown. */
  datatype StaticOutcome = StaticOutcome(results: seq<Result>, failures: seq<Failure>, offersSave: bool)

  /** Every call of `AnalyzeFile` starts its own process or opens its file
      anew: in one run, the target at position `i` sees `ws(i)`. */
  type Worlds = nat -> World

  /** The worlds of the targets from position `d` on, renumbered from 0. */
  function Shift(ws: Worlds, d: nat): Worlds {
    (i: nat) => ws(i + d)
  }

  /** A configured target and its position in the configuration. */
  datatype Target = Target(pos: nat, name: string)

  /** The configured targets, each paired with its position. */
  function Numbered(files: seq<string>): (n: seq<Target>)
    ensures |n| == |files|
    ensures forall i :: 0 <= i < |files| ==> n[i] == Target(i, files[i])
  {
    seq(|files|, i requires 0 <= i < |files| => Target(i, files[i]))
  }

  lemma NumberedPrefix(files: seq<string>, i: nat)
    requires i <= |files|
    ensures Numbered(files[..i]) == Numbered(files)[..i]
  {
  }

  /** What one target adds to the aggregate: all of its records when its
      analysis returned no error, nothing otherwise. */
  function Contribution(p: Platform, rules: seq<Rule>, ws: Worlds): Target -> seq<Result>
  {
    (t: Target) => var a := AnalyzeFile(p, t.name, rules, ws(t.pos)); if a.err.Some? then [] else a.results
  }

  function FailureOf(p: Platform, rules: seq<Rule>, ws: Worlds): Target -> seq<Failure>
  {
    (t: Target) => var a := AnalyzeFile(p, t.name, rules, ws(t.pos)); if a.err.Some? then [Failure(t.name, a.err.value)] else []
  }

  /** The records aggregated over `files`, in configured order. */
  function Aggregate(p: Platform, rules: seq<Rule>, ws: Worlds, files: seq<string>): (r: seq<Result>)
    ensures forall x :: x in r ==> exists i :: 0 <= i < |files| && var a := AnalyzeFile(p, files[i], rules, ws(i));
              a.err.None? && x in a.results
  {
    FlatMapMembers(Numbered(files), Contribution(p, rules, ws));
    FlatMap(Numbered(files), Contribution(p, rules, ws))
  }

  /** The targets logged as failed, in configured order. */
  function Failures(p: Platform, rules: seq<Rule>, ws: Worlds, files: seq<string>): (r: seq<Failure>)
    ensures forall x :: x in r ==>
              exists i :: 0 <= i < |files| && x.target == files[i] && AnalyzeFile(p, files[i], rules, ws(i)).err == Some(x.err)
  {
    FlatMapMembers(Numbered(files), FailureOf(p, rules, ws));
    FlatMap(Numbered(files), FailureOf(p, rules, ws))
  }

  /** What one run of `runStaticAnalysis` yields. */
  function StaticResult(p: Platform, cfg: Config, ws: Worlds): StaticOutcome
  {
    var results := Aggregate(p, cfg.rules, ws, cfg.files);
    StaticOutcome(results, Failures(p, cfg.rules, ws, cfg.files), results != [])
  }

  /** The loop of `runStaticAnalysis` as written. */
  method RunStaticAnalysis(p: Platform, cfg: Config, ws: Worlds) returns (out: StaticOutcome)
    ensures out.results == Aggregate(p, cfg.rules, ws, cfg.files)
    ensures out.failures == Failures(p, cfg.rules, ws, cfg.files)
    ensures out.offersSave <==> out.results != []
    ensures out == StaticResult(p, cfg, ws)
  {
    var allResults: seq<Result> := [];
    var failures: seq<Failure> := [];
    var i := 0;
    while i < |cfg.files|
      invariant 0 <= i <= |cfg.files|
      invariant allResults == Aggregate(p, cfg.rules, ws, cfg.files[..i])
      invariant failures == Failures(p, cfg.rules, ws, cfg.files[..i])
    {
      var a := AnalyzeFile(p, cfg.files[i], cfg.rules, ws(i));
      StaticStep(p, cfg.rules, ws, cfg.files, i);
      if a.err.Some? {
        failures := failures + [Failure(cfg.files[i], a.err.value)];
      } else {
        allResults := allResults + a.results;
      }
      i := i + 1;
    }
    assert cfg.files[..i] == cfg.files;
    out := StaticOutcome(allResults, failures, |allResults| > 0);
  }

  /** One more target extends both aggregates by what its analysis gives. */
  lemma StaticStep(p: Platform, rules: seq<Rule>, ws: Worlds, files: seq<string>, i: nat)
    requires i < |files|
    ensures var a := AnalyzeFile(p, files[i], rules, ws(i));
            && Aggregate(p, rules, ws, files[..i + 1])
               == Aggregate(p, rules, ws, files[..i]) + (if a.err.Some? then [] else a.results)
            && Failures(p, rules, ws, files[..i + 1])
               == Failures(p, rules, ws, files[..i]) + (if a.err.Some? then [Failure(files[i], a.err.value)] else [])
  {
    NumberedPrefix(files, i);
    NumberedPrefix(files, i + 1);
    FlatMapSnoc(Numbered(files), i, Contribution(p, rules, ws));
    FlatMapSnoc(Numbered(files), i, FailureOf(p, rules, ws));
  }

  /** The targets from position `d` on contribute what a run over just
      them, with their worlds renumbered, would aggregate. */
  lemma NumberedSuffix(p: Platform, rules: seq<Rule>, ws: Worlds, files: seq<string>, d: nat)
    requires d <= |files|
    ensures FlatMap(Numbered(files)[d..], Contribution(p, rules, ws)) == Aggregate(p, rules, Shift(ws, d), files[d..])
  {
    var xs, ys := Numbered(files)[d..], Numbered(files[d..]);
    forall k | 0 <= k < |xs| ensures Contribution(p, rules, ws)(xs[k]) == Contribution(p, rules, Shift(ws, d))(ys[k]) {
      assert xs[k] == Target(k + d, files[k + d]) && ys[k] == Target(k, files[k + d]);
      assert Shift(ws, d)(k) == ws(k + d);
    }
    FlatMapPointwise(xs, Contribution(p, rules, ws), ys, Contribution(p, rules, Shift(ws, d)));
  }

  /** Fail-soft: a target whose analysis errors is skipped, even when it
      returned partial records, and the targets around it still count. */
  lemma FailedTargetContributesNothing(p: Platform, cfg: Config, ws: Worlds, i: nat)
    requires i < |cfg.files| && AnalyzeFile(p, cfg.files[i], cfg.rules, ws(i)).err.Some?
    ensures Aggregate(p, cfg.rules, ws, cfg.files)
            == Aggregate(p, cfg.rules, ws, cfg.files[..i]) + Aggregate(p, cfg.rules, Shift(ws, i + 1), cfg.files[i + 1..])
  {
    assert Numbered(cfg.files)[i] == Target(i, cfg.files[i]);
    FlatMapSkip(Numbered(cfg.files), i, Contribution(p, cfg.rules, ws));
    NumberedPrefix(cfg.files, i);
    NumberedSuffix(p, cfg.rules, ws, cfg.files, i + 1);
  }

  /** The aggregate over two lists of targets is the two aggregates in
      configured order, the second list's targets keeping their positions. */
  lemma AggregateAppend(p: Platform, rules: seq<Rule>, ws: Worlds, a: seq<string>, b: seq<string>)
    ensures Aggregate(p, rules, ws, a + b) == Aggregate(p, rules, ws, a) + Aggregate(p, rules, Shift(ws, |a|), b)
  {
    var n := Numbered(a + b);
    assert n == n[..|a|] + n[|a|..];
    FlatMapAppend(n[..|a|], n[|a|..], Contribution(p, rules, ws));
    assert (a + b)[..|a|] == a && (a + b)[|a|..] == b;
    NumberedPrefix(a + b, |a|);
    NumberedSuffix(p, rules, ws, a + b, |a|);
  }

  /** A file whose scanner fails part-way contributes nothing, although
      `AnalyzeFile` returned the records matched before the failure. */
  lemma ScanErrorDiscardsPartialResults(p: Platform, target: string, rules: seq<Rule>, ws: Worlds, i: nat,
                                        read: seq<ScannedLine>, e: Error)
    requires Resolve(p, target).LogFile?
    requires ws(i).files(FilePath(p, target)) == Opened(Stream(read, Some(e)))
    ensures AnalyzeFile(p, target, rules, ws(i)).results == Scan(read, rules)
    ensures Contribution(p, rules, ws)(Target(i, target)) == []
  {
  }

  datatype LiveOutcome = NoTargets | Monitored(target: string, outcome: WatchOutcome)

  /** `runLiveMonitoring`: nothing to watch without targets; otherwise the
      first configured target is watched. */
  function RunLiveMonitoring(p: Platform, cfg: Config, w: WatchWorld): (o: LiveOutcome)
    ensures o.NoTargets? <==> cfg.files == []
    ensures o.Monitored? ==> o.target == cfg.files[0] && o.outcome == WatchFile(p, cfg.files[0], cfg.rules, w)
  {
    if |cfg.files| == 0 then NoTargets
    else
      var target := cfg.files[0];
      Monitored(target, WatchFile(p, target, cfg.rules, w))
  }

  /** Targets after the first play no part in live monitoring. */
  lemma LiveIgnoresLaterTargets(p: Platform, c1: Config, c2: Config, w: WatchWorld)
    requires c1.files != [] && c2.files != []
    requires c1.files[0] == c2.files[0] && c1.rules == c2.rules
    ensures RunLiveMonitoring(p, c1, w) == RunLiveMonitoring(p, c2, w)
  {
  }

  /** The live monitors that never give control back to the menu: the
      Windows poller always, the macOS watcher while `log stream` keeps
      producing lines, and the tail once its file is open and seeked. */
  lemma LiveNeverReturns(p: Platform, cfg: Config, w: WatchWorld)
    requires cfg.files != []
    ensures RunLiveMonitoring(p, cfg, w).outcome.StillRunning? <==>
            match Resolve(p, cfg.files[0])
            case EventLogQuery => true
            case LogShow => w.logStream.Streaming?
            case LogFile(path) => w.tails(path).TailOpened?
  {
  }

  /** The menu entries of `main`. */
  datatype Choice = StaticAnalysis | LiveMonitoring | Exit | Invalid

  /** The `switch` of `main` on the trimmed input line. */
  function ParseChoice(input: string): (c: Choice)
    ensures c == StaticAnalysis <==> TrimSpace(input) == "1"
    ensures c == LiveMonitoring <==> TrimSpace(input) == "2"
    ensures c == Exit <==> TrimSpace(input) == "3"
  {
    match TrimSpace(input)
    case "1" => StaticAnalysis
    case "2" => LiveMonitoring
    case "3" => Exit
    case _ => Invalid
  }

  /** `strings.ToLower(choice) == "y"` on the word `fmt.Scanln` reads:
      a lone "y" or "Y", whatever blanks surround it. */
  predicate SaysYes(answer: string): (b: bool)
    ensures b <==> TrimSpace(answer) == "y" || TrimSpace(answer) == "Y"
  {
    LowerIsY(TrimSpace(answer));
    ToLower(TrimSpace(answer)) == "y"
  }

  lemma LowerIsY(t: string)
    ensures ToLower(t) == "y" <==> t == "y" || t == "Y"
  {
    if ToLower(t) == "y" {
      assert |t| == 1 && LowerChar(t[0]) == 'y';
      assert t == [t[0]];
    }
    if t == "y" || t == "Y" {
      assert ToLower(t)[0] == 'y';
    }
  }

  /** One line of standard input as each of its possible readers takes
      it: its text, the menu choice it makes, and whether it answers the
      save prompt with yes. */
  datatype Line = Line(text: string, choice: Choice, yes: bool)

  function ReadLine(s: string): Line {
    Line(s, ParseChoice(s), SaysYes(s))
  }

  /** Standard input, line by line. */
  function Lines(inputs: seq<string>): (ls: seq<Line>)
    ensures |ls| == |inputs|
    ensures forall i :: 0 <= i < |inputs| ==> ls[i] == ReadLine(inputs[i])
  {
    seq(|inputs|, i requires 0 <= i < |inputs| => ReadLine(inputs[i]))
  }

  /** The lines `runStaticAnalysis` itself reads after its menu line: the
      save answer when it asks for one, then the line that returns to the
      menu. A requested save that cannot create the report directory
      returns before that last read (`abandoned`). */
  function PromptLines(o: StaticOutcome, abandoned: bool): (k: nat)
    ensures 1 <= k <= 2
    ensures !o.offersSave ==> k == 1
    ensures k == 2 <==> o.offersSave && !abandoned
  {
    if o.offersSave && !abandoned then 2 else 1
  }

  /** What the two menu actions yield when started by the menu line at
      each position of the input, and whether `os.MkdirAll` fails for a
      save requested there. The menu loop needs nothing else about them;
      `Runs` builds the environment of one configuration. */
  datatype Env = Env(staticRun: nat -> StaticOutcome, liveRun: nat -> LiveOutcome, reportDirFails: nat -> bool)

  /** The environment of a session on platform `p` with configuration
      `cfg`: the static run started at line `n` sees the worlds `batch(n)`,
      the live monitor started there sees `live(n)`. */
  function Runs(p: Platform, cfg: Config, batch: nat -> Worlds, live: nat -> WatchWorld, dirFails: nat -> bool): (env: Env)
    ensures forall n: nat :: env.staticRun(n) == StaticResult(p, cfg, batch(n))
    ensures forall n: nat :: env.liveRun(n) == RunLiveMonitoring(p, cfg, live(n))
    ensures env.reportDirFails == dirFails
  {
    Env((n: nat) => StaticResult(p, cfg, batch(n)), (n: nat) => RunLiveMonitoring(p, cfg, live(n)), dirFails)
  }

  /** The static run started at line `n` offers to save and the next line
      answers yes. */
  predicate Saves(env: Env, lines: seq<Line>, n: nat) {
    env.staticRun(n).offersSave && n + 1 < |lines| && lines[n + 1].yes
  }

  /** What the menu loop does with one menu line. */
  datatype Event =
    | Analysed(report: StaticOutcome, save: bool)
    | Watched(live: LiveOutcome)
    | Rejected(input: string)
    | Exiting

  /** The events after which `main` reads no further line: the exit, and
      a live monitor whose watcher never returns (see `LiveNeverReturns`). */
  predicate Blocks(e: Event) {
    e.Exiting? || (e.Watched? && e.live.Monitored? && e.live.outcome.StillRunning?)
  }

  /** One turn of the menu loop: what the menu line at `n` does, and the
      line the menu reads next if it reads again. */
  datatype Turn = Turn(event: Event, next: nat)

  function Dispatch(env: Env, lines: seq<Line>, n: nat): (t: Turn)
    requires n < |lines|
    ensures t.event.Analysed? <==> lines[n].choice == StaticAnalysis
    ensures t.event.Watched? <==> lines[n].choice == LiveMonitoring
    ensures t.event.Exiting? <==> lines[n].choice == Exit
    ensures t.event.Rejected? <==> lines[n].choice == Invalid
    ensures n < t.next <= n + 3
    ensures t.next == n + 3 ==> t.event.Analysed? && t.event.report.offersSave
    ensures lines[n].choice != StaticAnalysis ==> t.next == n + 1
    ensures t.event.Analysed? ==>
              && t.event.report == env.staticRun(n)
              && t.event.save == Saves(env, lines, n)
              && t.next == n + 1 + PromptLines(env.staticRun(n), t.event.save && env.reportDirFails(n))
    ensures t.event.Watched? ==> t.event.live == env.liveRun(n)
    ensures t.event.Rejected? ==> t.event.input == lines[n].text
  {
    match lines[n].choice
    case Exit => Turn(Exiting, n + 1)
    case Invalid => Turn(Rejected(lines[n].text), n + 1)
    case StaticAnalysis =>
      var save := Saves(env, lines, n);
      Turn(Analysed(env.staticRun(n), save), n + 1 + PromptLines(env.staticRun(n), save && env.reportDirFails(n)))
    case LiveMonitoring =>
      Turn(Watched(env.liveRun(n)), n + 1)
  }

  /** The menu loop of `main` from input line `n` on. Each menu line is
      trimmed and dispatched; a static run reads its own prompt lines
      before the menu reads again; the loop stops at "3", at a live
      monitor that keeps running, or when the input runs out. */
  function Session(env: Env, lines: seq<Line>, n: nat): (r: seq<Event>)
    decreases |lines| - n
    ensures n >= |lines| ==> r == []
    ensures n < |lines| ==> 0 < |r| <= |lines| - n
    ensures forall k :: 0 <= k < |r| - 1 ==> !Blocks(r[k])
  {
    if n >= |lines| then []
    else
      var t := Dispatch(env, lines, n);
      if Blocks(t.event) then [t.event]
      else
        var rest := Session(env, lines, t.next);
        StopsOnlyAtEnd(t.event, rest);
        [t.event] + rest
  }

  /** `main` over the lines of standard input: one event per menu line
      read, the first one chosen by the first line, and only the last one
      can stop the loop. */
  function Menu(env: Env, inputs: seq<string>): (r: seq<Event>)
    ensures |r| <= |inputs|
    ensures r == [] <==> inputs == []
    ensures forall k :: 0 <= k < |r| - 1 ==> !Blocks(r[k])
    ensures inputs != [] ==>
              && (r[0].Analysed? <==> TrimSpace(inputs[0]) == "1")
              && (r[0].Watched? <==> TrimSpace(inputs[0]) == "2")
              && (r[0].Exiting? <==> TrimSpace(inputs[0]) == "3")
  {
    Session(env, Lines(inputs), 0)
  }

  /** The environment built by `Runs` dispatches a "1" to the static run
      of its configuration, with the worlds of that line, and a "2" to the
      live monitor of its configuration. */
  lemma RunsDispatch(p: Platform, cfg: Config, batch: nat -> Worlds, live: nat -> WatchWorld, dirFails: nat -> bool,
                     lines: seq<Line>, n: nat)
    requires n < |lines|
    ensures var t := Dispatch(Runs(p, cfg, batch, live, dirFails), lines, n);
            var save := StaticResult(p, cfg, batch(n)).offersSave && n + 1 < |lines| && lines[n + 1].yes;
            && (lines[n].choice == StaticAnalysis ==>
                  && t.event == Analysed(StaticResult(p, cfg, batch(n)), save)
                  && t.next == n + 1 + PromptLines(StaticResult(p, cfg, batch(n)), save && dirFails(n)))
            && (lines[n].choice == LiveMonitoring ==> t.event == Watched(RunLiveMonitoring(p, cfg, live(n))))
  {
  }

  /** Once the menu has stopped, at "3" or in a monitor that never
      returns, the lines typed after it are never read. */
  lemma MenuIgnoresInputAfterStop(env: Env, inputs: seq<string>, more: seq<string>)
    ensures var r := Menu(env, inputs);
            r != [] && Blocks(r[|r| - 1]) ==> Menu(env, inputs + more) == r
  {
    var r := Menu(env, inputs);
    if r != [] && Blocks(r[|r| - 1]) {
      LinesAppend(inputs, more);
      NothingReadAfterBlock(env, Lines(inputs), Lines(more), 0);
    }
  }

  lemma LinesAppend(a: seq<string>, b: seq<string>)
    ensures Lines(a + b) == Lines(a) + Lines(b)
  {
    var l, r := Lines(a + b), Lines(a) + Lines(b);
    assert |l| == |r|;
    forall i | 0 <= i < |l| ensures l[i] == r[i] {
      if i < |a| {
        assert (a + b)[i] == a[i];
      } else {
        assert (a + b)[i] == b[i - |a|];
      }
    }
  }

  /** A turn that lets the loop go on, put before a session that stops
      only at its end, still stops only at the end. */
  lemma StopsOnlyAtEnd(e: Event, rest: seq<Event>)
    requires !Blocks(e)
    requires forall k :: 0 <= k < |rest| - 1 ==> !Blocks(rest[k])
    ensures forall k :: 0 <= k < |rest| ==> !Blocks(([e] + rest)[k])
  {
  }

  /** A turn reads only its own line and the one after it. */
  lemma DispatchLocal(env: Env, a: seq<Line>, b: seq<Line>, n: nat)
    requires n < |a| == |b| && a[n] == b[n] && (n + 1 < |a| ==> a[n + 1] == b[n + 1])
    ensures Dispatch(env, a, n) == Dispatch(env, b, n)
  {
  }

  /** A turn reads only the lines from its own on. */
  lemma DispatchFrom(env: Env, a: seq<Line>, b: seq<Line>, n: nat)
    requires n < |a| && n < |b| && a[n..] == b[n..]
    ensures Dispatch(env, a, n) == Dispatch(env, b, n)
  {
    assert |a| == |b| && a[n] == a[n..][0] == b[n];
    if n + 1 < |a| {
      assert a[n + 1] == a[n..][1] == b[n + 1];
    }
    DispatchLocal(env, a, b, n);
  }

  /** The session from line `n` on depends only on the lines from `n` on. */
  lemma {:induction false} SessionFrom(env: Env, a: seq<Line>, b: seq<Line>, n: nat)
    requires n <= |a| && n <= |b| && a[n..] == b[n..]
    ensures Session(env, a, n) == Session(env, b, n)
    decreases |a| - n
  {
    if n < |a| {
      DispatchFrom(env, a, b, n);
      var t := Dispatch(env, a, n);
      if !Blocks(t.event) {
        assert Session(env, a, t.next) == Session(env, b, t.next) by {
          if t.next <= |a| {
            SameSuffix(a, b, n, t.next);
            SessionFrom(env, a, b, t.next);
          }
        }
        assert Session(env, a, n) == [t.event] + Session(env, a, t.next) by {
          SessionStep(env, a, n);
        }
        assert Session(env, b, n) == [t.event] + Session(env, b, t.next) by {
          SessionStep(env, b, n);
        }
      }
    }
  }

  lemma SameSuffix(a: seq<Line>, b: seq<Line>, n: nat, m: nat)
    requires n <= m <= |a| && n <= |b| && a[n..] == b[n..]
    ensures a[m..] == b[m..]
  {
    assert a[m..] == a[n..][m - n..] && b[m..] == b[n..][m - n..];
  }

  /** A turn whose lines were all there reads the same with more input. */
  lemma DispatchExtends(env: Env, lines: seq<Line>, more: seq<Line>, n: nat)
    requires n < |lines| && Dispatch(env, lines, n).next <= |lines|
    ensures Dispatch(env, lines + more, n) == Dispatch(env, lines, n)
  {
    var all := lines + more;
    assert all[n] == lines[n];
    if n + 1 < |lines| {
      assert all[n + 1] == lines[n + 1];
    }
  }

  /** Once the loop has stopped, at "3" or in a monitor that never returns,
      no later line is read: more input changes nothing. */
  lemma {:induction false} NothingReadAfterBlock(env: Env, lines: seq<Line>, more: seq<Line>, n: nat)
    requires Session(env, lines, n) != []
    requires Blocks(Session(env, lines, n)[|Session(env, lines, n)| - 1])
    ensures Session(env, lines + more, n) == Session(env, lines, n)
    decreases |lines| - n
  {
    var t := Dispatch(env, lines, n);
    if Blocks(t.event) {
      BlockingTurnExtends(env, lines, more, n);
    } else {
      LastOfRest(env, lines, n);
      NothingReadAfterBlock(env, lines, more, t.next);
      PassingTurnExtends(env, lines, more, n);
    }
  }

  /** A turn that stops the loop reads the same, and ends the session the
      same way, with more input. */
  lemma BlockingTurnExtends(env: Env, lines: seq<Line>, more: seq<Line>, n: nat)
    requires n < |lines| && Blocks(Dispatch(env, lines, n).event)
    ensures Session(env, lines + more, n) == Session(env, lines, n)
  {
    DispatchExtends(env, lines, more, n);
  }

  /** When the loop goes on after line `n` and ends in a stop, the rest of
      the session ends in that same stop. */
  lemma LastOfRest(env: Env, lines: seq<Line>, n: nat)
    requires Session(env, lines, n) != []
    requires Blocks(Session(env, lines, n)[|Session(env, lines, n)| - 1])
    requires !Blocks(Dispatch(env, lines, n).event)
    ensures var rest := Session(env, lines, Dispatch(env, lines, n).next);
            rest != [] && Blocks(rest[|rest| - 1]) && Dispatch(env, lines, n).next < |lines|
  {
    SessionStep(env, lines, n);
  }

  /** A turn that lets the loop go on, and whose rest reads the same with
      more input, gives the same session with more input. */
  lemma PassingTurnExtends(env: Env, lines: seq<Line>, more: seq<Line>, n: nat)
    requires n < |lines| && !Blocks(Dispatch(env, lines, n).event)
    requires Dispatch(env, lines, n).next <= |lines|
    requires Session(env, lines + more, Dispatch(env, lines, n).next) == Session(env, lines, Dispatch(env, lines, n).next)
    ensures Session(env, lines + more, n) == Session(env, lines, n)
  {
    DispatchExtends(env, lines, more, n);
    SessionStep(env, lines, n);
    SessionStep(env, lines + more, n);
  }

  /** The line that returns to the menu after a static run, when the run
      gets as far as reading it, is read but never dispatched: whatever it
      holds, the session is the same. */
  lemma PressEnterLineIgnored(env: Env, lines: seq<Line>, n: nat, x: Line)
    requires n < |lines| && lines[n].choice == StaticAnalysis
    requires !(Saves(env, lines, n) && env.reportDirFails(n))
    requires n + PromptLines(env.staticRun(n), false) < |lines|
    ensures Session(env, lines[n + PromptLines(env.staticRun(n), false) := x], n)
            == Session(env, lines, n)
  {
    var j := n + PromptLines(env.staticRun(n), false);
    var b := lines[j := x];
    PressEnterTurn(env, lines, n, j, x);
    var t := Dispatch(env, lines, n);
    assert Session(env, b, n) == [t.event] + Session(env, lines, t.next) by {
      ReplaceTurn(env, lines, b, n, t.event, t.next);
    }
    assert Session(env, lines, n) == [t.event] + Session(env, lines, t.next) by {
      SessionStep(env, lines, n);
    }
  }

  /** Changing the press-enter line leaves the static turn as it was. */
  lemma PressEnterTurn(env: Env, lines: seq<Line>, n: nat, j: nat, x: Line)
    requires n < |lines| && lines[n].choice == StaticAnalysis
    requires !(Saves(env, lines, n) && env.reportDirFails(n))
    requires j == n + PromptLines(env.staticRun(n), false) < |lines|
    ensures Dispatch(env, lines[j := x], n) == Dispatch(env, lines, n)
    ensures Dispatch(env, lines, n).next == j + 1 && !Blocks(Dispatch(env, lines, n).event)
  {
    var b := lines[j := x];
    assert b[n] == lines[n];
    if j > n + 1 {
      assert b[n + 1] == lines[n + 1];
    }
  }

  /** A turn that does not stop the loop is followed by the rest of the
      session from the line it leaves off at. */
  lemma SessionStep(env: Env, lines: seq<Line>, n: nat)
    requires n < |lines| && !Blocks(Dispatch(env, lines, n).event)
    ensures Session(env, lines, n) == [Dispatch(env, lines, n).event] + Session(env, lines, Dispatch(env, lines, n).next)
  {
  }

  /** The save answer after a static run is never dispatched as a menu
      choice: it decides whether the report is saved and, when the report
      directory cannot be created, whether the press-enter line is read. */
  lemma SaveAnswerNotDispatched(env: Env, lines: seq<Line>, n: nat, x: Line)
    requires n + 1 < |lines| && lines[n].choice == StaticAnalysis
    requires env.staticRun(n).offersSave
    ensures Session(env, lines[n + 1 := x], n)
            == [Analysed(env.staticRun(n), x.yes)]
               + Session(env, lines, n + 1 + PromptLines(env.staticRun(n), x.yes && env.reportDirFails(n)))
  {
    var m := n + 1 + PromptLines(env.staticRun(n), x.yes && env.reportDirFails(n));
    SaveAnswerTurn(env, lines, n, x);
    ReplaceTurn(env, lines, lines[n + 1 := x], n, Analysed(env.staticRun(n), x.yes), m);
  }

  /** A turn that does not stop the loop is followed by the session from
      the line it leaves off at, and only the lines from there on matter
      to that rest. */
  lemma ReplaceTurn(env: Env, a: seq<Line>, b: seq<Line>, n: nat, e: Event, m: nat)
    requires n < |b| && |a| == |b| && Dispatch(env, b, n) == Turn(e, m) && !Blocks(e)
    requires m <= |a| ==> a[m..] == b[m..]
    ensures Session(env, b, n) == [e] + Session(env, a, m)
  {
    SessionStep(env, b, n);
    if m <= |a| {
      SessionFrom(env, b, a, m);
    }
  }

  lemma SaveAnswerTurn(env: Env, lines: seq<Line>, n: nat, x: Line)
    requires n + 1 < |lines| && lines[n].choice == StaticAnalysis
    requires env.staticRun(n).offersSave
    ensures Dispatch(env, lines[n + 1 := x], n)
            == Turn(Analysed(env.staticRun(n), x.yes), n + 1 + PromptLines(env.staticRun(n), x.yes && env.reportDirFails(n)))
  {
    var b := lines[n + 1 := x];
    assert b[n] == lines[n] && b[n + 1] == x;
  }

  /** How the three menu keys and a "y" are read. */
  lemma ReadsStatic(s: string)
    requires s == "1"
    ensures ReadLine(s).choice == StaticAnalysis
  {
    TrimSpaceOfTight(s);
  }

  lemma ReadsLive(s: string)
    requires s == "2"
    ensures ReadLine(s).choice == LiveMonitoring
  {
    TrimSpaceOfTight(s);
  }

  lemma ReadsExit(s: string)
    requires s == "3"
    ensures ReadLine(s).choice == Exit
  {
    TrimSpaceOfTight(s);
  }

  lemma ReadsYes(s: string)
    requires s == "y"
    ensures ReadLine(s).yes
  {
    TrimSpaceOfTight(s);
    ToLowerOfLower(s);
  }

  /** A static run that offers no save, then an exit two lines on. */
  lemma StaticThenExit(env: Env, ls: seq<Line>)
    requires |ls| == 3 && ls[0].choice == StaticAnalysis && ls[2].choice == Exit
    requires !env.staticRun(0).offersSave
    ensures Session(env, ls, 0) == [Analysed(env.staticRun(0), false), Exiting]
  {
    assert Dispatch(env, ls, 0) == Turn(Analysed(env.staticRun(0), false), 2);
    assert Dispatch(env, ls, 2) == Turn(Exiting, 3);
    SessionStep(env, ls, 0);
  }

  /** "1", an empty line, "3": when no records are found the empty line
      returns to the menu and "3" exits; the empty line is never a menu
      choice. */
  lemma StaticThenExitScenario(env: Env, inputs: seq<string>)
    requires |inputs| == 3 && inputs[0] == "1" && inputs[1] == "" && inputs[2] == "3"
    requires !env.staticRun(0).offersSave
    ensures Menu(env, inputs) == [Analysed(env.staticRun(0), false), Exiting]
  {
    var ls := Lines(inputs);
    assert ls[0].choice == StaticAnalysis by { ReadsStatic(inputs[0]); }
    assert ls[2].choice == Exit by { ReadsExit(inputs[2]); }
    StaticThenExit(env, ls);
  }

  /** A static run whose save is answered yes but fails, then an exit on
      the line after the answer. */
  lemma FailedSaveThenExit(env: Env, ls: seq<Line>)
    requires |ls| == 3 && ls[0].choice == StaticAnalysis && ls[1].yes && ls[2].choice == Exit
    requires env.staticRun(0).offersSave && env.reportDirFails(0)
    ensures Session(env, ls, 0) == [Analysed(env.staticRun(0), true), Exiting]
  {
    assert Dispatch(env, ls, 0) == Turn(Analysed(env.staticRun(0), true), 2);
    assert Dispatch(env, ls, 2) == Turn(Exiting, 3);
    SessionStep(env, ls, 0);
  }

  /** How "1", "y", "3" is read. */
  lemma ReadsSaveInput(inputs: seq<string>)
    requires |inputs| == 3 && inputs[0] == "1" && inputs[1] == "y" && inputs[2] == "3"
    ensures var ls := Lines(inputs);
            |ls| == 3 && ls[0].choice == StaticAnalysis && ls[1].yes && ls[2].choice == Exit
  {
    var ls := Lines(inputs);
    assert ls[0].choice == StaticAnalysis by { ReadsStatic(inputs[0]); }
    assert ls[1].yes by { ReadsYes(inputs[1]); }
    assert ls[2].choice == Exit by { ReadsExit(inputs[2]); }
  }

  /** "1", "y", "3" when records are found but the report directory
      cannot be created: the run returns without reading the press-enter
      line, so the "3" is the next menu line. */
  lemma FailedSaveScenario(env: Env, inputs: seq<string>)
    requires |inputs| == 3 && inputs[0] == "1" && inputs[1] == "y" && inputs[2] == "3"
    requires env.staticRun(0).offersSave && env.reportDirFails(0)
    ensures Menu(env, inputs) == [Analysed(env.staticRun(0), true), Exiting]
  {
    ReadsSaveInput(inputs);
    FailedSaveThenExit(env, Lines(inputs));
  }

  /** A live monitor that keeps running ends the session at its line. */
  lemma LiveBlocks(env: Env, ls: seq<Line>)
    requires 0 < |ls| && ls[0].choice == LiveMonitoring
    requires env.liveRun(0).Monitored? && env.liveRun(0).outcome.StillRunning?
    ensures Session(env, ls, 0) == [Watched(env.liveRun(0))]
  {
  }

  /** "2", then "3", on Linux with a target that opens: the tail never
      returns, so the "3" is never read. */
  lemma LiveThenExitScenario(p: Platform, cfg: Config, batch: nat -> Worlds, live: nat -> WatchWorld, dirFails: nat -> bool, inputs: seq<string>)
    requires |inputs| == 2 && inputs[0] == "2" && inputs[1] == "3"
    requires p == Linux && cfg.files != []
    requires live(0).tails(FilePath(Linux, cfg.files[0])).TailOpened?
    ensures Menu(Runs(p, cfg, batch, live, dirFails), inputs) == [Watched(RunLiveMonitoring(p, cfg, live(0)))]
  {
    var env := Runs(p, cfg, batch, live, dirFails);
    var ls := Lines(inputs);
    assert 0 < |ls| && ls[0].choice == LiveMonitoring by { ReadsLive(inputs[0]); }
    assert env.liveRun(0).Monitored? && env.liveRun(0).outcome.StillRunning?;
    LiveBlocks(env, ls);
  }

  /** "2", then "3", on macOS while `log stream` keeps producing lines:
      the watcher never returns, so the "3" is never read. */
  lemma MacLiveThenExitScenario(cfg: Config, batch: nat -> Worlds, live: nat -> WatchWorld, dirFails: nat -> bool, inputs: seq<string>)
    requires |inputs| == 2 && inputs[0] == "2" && inputs[1] == "3"
    requires cfg.files != [] && live(0).logStream.Streaming?
    ensures Menu(Runs(Darwin, cfg, batch, live, dirFails), inputs) == [Watched(RunLiveMonitoring(Darwin, cfg, live(0)))]
  {
    var env := Runs(Darwin, cfg, batch, live, dirFails);
    var ls := Lines(inputs);
    assert 0 < |ls| && ls[0].choice == LiveMonitoring by { ReadsLive(inputs[0]); }
    assert env.liveRun(0).Monitored? && env.liveRun(0).outcome.StillRunning?;
    LiveBlocks(env, ls);
  }
}
