/** Source selection of `internal/analyzer/analyzer.go`: which log source a
    configured target denotes on a given platform.

    `AnalyzeFile` and `WatchFile` each make this decision with their own
    copy of the same conditions. The platform, `runtime.GOOS` in the
    source, is a parameter here. */
module Sources {

  /** The value of `runtime.GOOS`, as far as the analyzer distinguishes it. */
  datatype Platform = Windows | Darwin | Linux | OtherOS

  /** Sentinel targets naming the platform's own log. */
  const SecurityLogs: string := "SECURITY_LOGS"
  const SystemLog: string := "SYSTEM"

  /** The file `SYSTEM` stands for on Linux. */
  const LinuxSyslog: string := "/var/log/syslog"

  /** The one-shot commands behind the two process sources, recorded for
      reference; their output is an input of the model. */
  const EventLogQueryCommand: string := "Get-EventLog -LogName Security -Newest 500 | Select-Object -ExpandProperty Message"
  const LogShowCommand: seq<string> := ["log", "show", "--style", "syslog", "--last", "10m"]

  /** Where a batch scan reads its lines from. */
  datatype Source =
    | EventLogQuery        // PowerShell query of the Windows Security event log
    | LogShow              // macOS `log show` over the last ten minutes
    | LogFile(path: string)

  predicate IsEventLogTarget(target: string) {
    target == SecurityLogs || target == SystemLog
  }

  /** The path a file target opens: on Linux `SYSTEM` becomes the syslog
      file, every other target is taken literally. */
  function FilePath(p: Platform, target: string): (path: string)
    ensures path != target <==> p == Linux && target == SystemLog
    ensures path != target ==> path == LinuxSyslog
  {
    if p == Linux && target == SystemLog then LinuxSyslog else target
  }

  /** The source-selection of `AnalyzeFile`. */
  function Resolve(p: Platform, target: string): (s: Source)
    ensures s.EventLogQuery? <==> p == Windows && IsEventLogTarget(target)
    ensures s.LogShow? <==> p == Darwin
    ensures s.LogFile? <==> (p == Windows && !IsEventLogTarget(target)) || p == Linux || p == OtherOS
    ensures s.LogFile? ==> s.path == FilePath(p, target)
  {
    if p == Windows && (target == SecurityLogs || target == SystemLog) then
      EventLogQuery
    else if p == Darwin then
      LogShow
    else
      LogFile(if p == Linux && target == SystemLog then LinuxSyslog else target)
  }

  /** On macOS the target is ignored: every target reads the system log. */
  lemma ResolveDarwinIgnoresTarget(t1: string, t2: string)
    ensures Resolve(Darwin, t1) == Resolve(Darwin, t2) == LogShow
  {
  }

  /** Outside Windows the sentinel `SECURITY_LOGS` is an ordinary file name,
      and on Linux `SYSTEM` is the syslog file. */
  lemma ResolveSentinelsOffWindows(p: Platform)
    requires p == Linux || p == OtherOS
    ensures Resolve(p, SecurityLogs) == LogFile(SecurityLogs)
    ensures Resolve(p, SystemLog) == LogFile(if p == Linux then LinuxSyslog else SystemLog)
  {
  }

  /** How live monitoring follows a target. */
  datatype Watcher =
    | PollEventLog          // `watchWindowsLogs`: re-run a PowerShell query
    | StreamLog             // `watchMacLogs`: read `log stream`
    | TailFile(path: string) // `watchLinuxLogs`: follow a file from its end

  /** The live counterpart of each batch source. */
  function LiveCounterpart(s: Source): Watcher {
    match s
    case EventLogQuery => PollEventLog
    case LogShow => StreamLog
    case LogFile(path) => TailFile(path)
  }

  /** The source selection of `WatchFile`, written out as the source repeats
      it; it makes the same choice as `AnalyzeFile`. */
  function SelectWatcher(p: Platform, target: string): (w: Watcher)
    ensures w == LiveCounterpart(Resolve(p, target))
  {
    if p == Windows && (target == SecurityLogs || target == SystemLog) then
      PollEventLog
    else if p == Darwin then
      StreamLog
    else
      var path := if p == Linux && target == SystemLog then LinuxSyslog else target;
      TailFile(path)
  }
}
