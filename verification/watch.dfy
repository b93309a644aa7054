/** Live monitoring, `WatchFile` and its three watchers
    (`internal/analyzer/analyzer.go`).

    Every watcher loops without end in the source. The model runs it over a
    finite sequence of observations (poll outputs, streamed lines, file
    states) and reports the alerts raised over them; a watcher that would
    still be looping afterwards is `StillRunning`. */
module Watch {
  import opened Wrappers
  import opened Config
  import opened Matcher
  import opened Sources
  import opened Batch
  import opened Tail
  import opened Seqs

  /** The commands behind the two process watchers, and the two sleeps,
      recorded for reference. */
  const PollCommand: string := "Get-EventLog -LogName Security -Newest 1 -After (Get-Date) | Select-Object -ExpandProperty Message"
  const StreamCommand: seq<string> := ["log", "stream", "--style", "syslog", "--level", "info"]
  const PollIntervalMillis: nat := 2000
  const RetryIntervalMillis: nat := 500

  /** Opening a file for tailing: `os.Open`, then `Seek(0, 2)`, then the
      contents the file has at each successive read. */
  datatype TailOpening =
    | TailOpenFailed(e: Error)
    | SeekFailed(e: Error)
    | TailOpened(initial: string, observed: seq<string>)

  /** Starting `log stream`. The process never exits on its own, so its
      scanner normally keeps yielding lines (`Streaming`). It `Ended` only
      when the pipe or the start failed, or when the scanner stopped, at
      an end of output or a read error, with the status `cmd.Wait()`
      then reports. */
  datatype LiveLaunch =
    | Ended(launch: Launch)
    | Streaming(lines: seq<ScannedLine>)

  /** What the environment yields for each watcher. */
  datatype WatchWorld = WatchWorld(polls: seq<string>, logStream: LiveLaunch, tails: string -> TailOpening)

  datatype WatchOutcome =
    | Returned(alerts: seq<Alert>, err: Option<Error>)
    | StillRunning(alerts: seq<Alert>)

  /** `watchWindowsLogs`: the whole combined output of each poll is one
      "line"; it is checked only when non-empty. */
  function PollStep(rules: seq<Rule>): string -> seq<Alert>
  {
    (out: string) => if out != "" then CheckRules(out, rules) else []
  }

  function WatchWindows(rules: seq<Rule>, polls: seq<string>): (o: WatchOutcome)
    ensures o.StillRunning?
    ensures forall a :: a in o.alerts ==> exists i :: 0 <= i < |polls| && polls[i] != "" && a in CheckRules(polls[i], rules)
  {
    FlatMapMembers(polls, PollStep(rules));
    StillRunning(FlatMap(polls, PollStep(rules)))
  }

  function CheckAll(rules: seq<Rule>): string -> seq<Alert>
  {
    (out: string) => CheckRules(out, rules)
  }

  /** The emptiness guard of the poller changes nothing: `checkRules`
      already ignores a blank line. */
  lemma {:induction false} PollGuardRedundant(rules: seq<Rule>, polls: seq<string>)
    ensures WatchWindows(rules, polls).alerts == FlatMap(polls, CheckAll(rules))
  {
    if polls != [] {
      PollGuardRedundant(rules, polls[1..]);
      if polls[0] == "" {
        assert CheckRules(polls[0], rules) == [];
      }
      assert PollStep(rules)(polls[0]) == CheckAll(rules)(polls[0]);
    }
  }

  /** The alerts for one streamed line. */
  function StreamStep(rules: seq<Rule>): ScannedLine -> seq<Alert>
  {
    (l: ScannedLine) => CheckRules(l.text, rules)
  }

  /** `watchMacLogs`: a failed pipe or start is returned; a stream whose
      scanner stopped returns the process's exit status, not the
      scanner's error; a stream still producing lines keeps the watcher
      running. Either way it alerts on exactly the records a batch scan of
      the streamed lines collects. */
  function WatchMac(rules: seq<Rule>, s: LiveLaunch): (o: WatchOutcome)
    ensures o.StillRunning? <==> s.Streaming?
    ensures s.Ended? && !s.launch.Started? ==> o == Returned([], Some(s.launch.e))
    ensures s.Ended? && s.launch.Started? ==> o.Returned? && o.err == s.launch.exit
    ensures s.Ended? && s.launch.Started? ==> o.alerts == AlertsOf(Scan(s.launch.out.lines, rules))
    ensures s.Streaming? ==> o.alerts == AlertsOf(Scan(s.lines, rules))
  {
    match s
    case Streaming(lines) =>
      StreamAgreesWithScan(rules, lines);
      StillRunning(FlatMap(lines, StreamStep(rules)))
    case Ended(PipeFailed(e)) => Returned([], Some(e))
    case Ended(StartFailed(e)) => Returned([], Some(e))
    case Ended(Started(out, exit)) =>
      StreamAgreesWithScan(rules, out.lines);
      Returned(FlatMap(out.lines, StreamStep(rules)), exit)
  }

  lemma AlertsOfAppend(a: seq<Result>, b: seq<Result>)
    ensures AlertsOf(a + b) == AlertsOf(a) + AlertsOf(b)
  {
  }

  /** Streaming and batch analysis agree: over the same lines, the live
      watcher alerts on exactly the records the batch scan collects. */
  lemma {:induction false} StreamAgreesWithScan(rules: seq<Rule>, lines: seq<ScannedLine>)
    ensures FlatMap(lines, StreamStep(rules)) == AlertsOf(Scan(lines, rules))
  {
    if lines != [] {
      StreamAgreesWithScan(rules, lines[1..]);
      ScanCons(lines, rules);
      CheckRulesAgrees(lines[0].text, rules, lines[0].at);
      AlertsOfAppend(Match(lines[0].text, rules, lines[0].at), Scan(lines[1..], rules));
    }
  }

  /** An alert `checkRules` raises on some line a tail run emitted. */
  ghost predicate RaisedOnEmit(a: Alert, events: seq<TailEvent>, rules: seq<Rule>) {
    exists i :: 0 <= i < |events| && events[i].Emit? && a in CheckRules(events[i].line, rules)
  }

  /** `watchLinuxLogs`: open and seek failures are returned; otherwise the
      tail runs from the end of the file over the observed states, never
      returns, and raises exactly the alerts of the lines it emits. */
  function WatchTail(rules: seq<Rule>, t: TailOpening): (o: WatchOutcome)
    ensures t.TailOpenFailed? || t.SeekFailed? ==> o == Returned([], Some(t.e))
    ensures t.TailOpened? ==> o.StillRunning?
    ensures t.TailOpened? ==> forall a :: a in o.alerts <==> RaisedOnEmit(a, TailRun(TailStart(t.initial), t.observed).events, rules)
  {
    match t
    case TailOpenFailed(e) => Returned([], Some(e))
    case SeekFailed(e) => Returned([], Some(e))
    case TailOpened(initial, observed) =>
      StillRunning(TailAlerts(TailRun(TailStart(initial), observed).events, rules))
  }

  /** On a file that only grows, the live tail raises the alerts of a
      reader that reads each line straight from the file, starting at the
      length the file had when it was opened. */
  lemma WatchTailOnGrowth(rules: seq<Rule>, initial: string, observed: seq<string>, full: string)
    requires Growing(observed, full)
    ensures WatchTail(rules, TailOpened(initial, observed)) == StillRunning(TailAlerts(ReadAtRun(|initial|, observed).events, rules))
  {
    BufferedAgreesOnGrowth(TailStart(initial), observed, full);
  }

  /** `WatchFile`: pick the watcher the way `AnalyzeFile` picks its source,
      and run it. */
  function WatchFile(p: Platform, target: string, rules: seq<Rule>, w: WatchWorld): (o: WatchOutcome)
    ensures Resolve(p, target) == EventLogQuery ==> o == WatchWindows(rules, w.polls)
    ensures Resolve(p, target) == LogShow ==> o == WatchMac(rules, w.logStream)
    ensures Resolve(p, target).LogFile? ==> o == WatchTail(rules, w.tails(FilePath(p, target)))
  {
    match SelectWatcher(p, target)
    case PollEventLog => WatchWindows(rules, w.polls)
    case StreamLog => WatchMac(rules, w.logStream)
    case TailFile(path) => WatchTail(rules, w.tails(path))
  }
}
