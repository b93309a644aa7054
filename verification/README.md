# log-analyzer core, modelled in Dafny

This project models the core of `log-analyzer`, a small Go tool. The tool reads operating-system logs and flags every line that contains one of the configured signatures. It has two modes:

- **Static analysis.** One batch pass over each configured target. The matches are collected and can be saved as a report.
- **Live monitoring.** The first configured target is followed indefinitely, and an alert is printed for every match.

The model covers:

- **Matcher** (`matcher.dfy`). A line is trimmed and skipped when blank. Every rule is then tried in order. A rule fires when its lower-cased pattern is a substring of the lower-cased line. Every firing rule is reported, not only the first. The predicate is defined once (`RuleMatches`). Both source loops that use it are modelled: the `Result`-collecting loop of `AnalyzeFile` (`Match`) and the alerting `checkRules` (`CheckRules`). A lemma shows that the two agree.
- **String primitives** (`text.dfy`). `strings.TrimSpace` over Go's `unicode.IsSpace` set. `strings.ToLower` on ASCII letters. `strings.Contains`, proved equivalent to "occurs at some offset".
- **Source selection** (`sources.dfy`). The platform (`runtime.GOOS`) is a parameter. On Windows, `SECURITY_LOGS` and `SYSTEM` select the Security event-log query. Otherwise macOS selects `log show` and ignores the target. Every other case opens the target as a file path, and on Linux `SYSTEM` is rewritten to `/var/log/syslog`. `WatchFile` repeats the same decision, and `SelectWatcher` is proved to agree with `Resolve`.
- **Batch scan** (`batch.dfy`). The scan is a fold of the matcher over the scanned lines. Opening a file, creating a pipe or starting a process is modelled as data that either fails or yields a stream. A failure at that stage returns no records and the error. Once scanning has begun, the records come back together with the scanner's own error. A process exit status is never consulted.
- **File tail** (`tail.dfy`). `watchLinuxLogs` reads with a `bufio.Reader`. The reader's state is the offset of the next byte it returns, plus the bytes it has read ahead.
  - The offset starts at the file length at open time.
  - A read serves a newline already buffered without touching the file. Otherwise it reads what the file holds past its own offset and emits the text up to the first newline, keeping the rest buffered.
  - A read that finds no newline hits EOF. The loop drops the text read and retries from the end of the file, without reopening or seeking.
  - A second reader reads straight from the file. On a file that only grows, it is proved to agree with the buffered one; a scenario shows where the two part when the file is rewritten in place.
- **Watchers** (`watch.dfy`). The Windows poller treats each poll's whole output as one line. The macOS stream checks every streamed line. While `log stream` keeps producing lines it never returns; once its scanner stops, at the end of output or on a read error, it returns the process exit status. The Linux tail is the reader above.
- **Orchestration** (`cli.dfy`).
  - `runStaticAnalysis` is fail-soft: a target whose analysis errors contributes nothing and the loop continues. Each target's analysis starts its own process or opens its file anew, so each target position has a world of its own.
  - The save-report prompt appears only when records were found.
  - `runLiveMonitoring` watches only the first target, or nothing when there are no targets.
  - The menu loop of `main` runs over the lines of standard input (`Session`). Each line is read (`Lines`) into a record of how its possible readers take it: the trimmed menu choice, and whether it answers the save prompt with yes. The session sees the two actions through an environment; `Runs` builds it from one configuration, giving the run started at each line that line's worlds.
  - A "1" starts a static run, which reads its own lines before the menu reads again: the save answer when records were found, then the "Press enter" line. A save that cannot create the report directory returns before that last read.
  - The loop stops at "3", or at a live monitor whose watcher never returns (the Windows poller, the macOS stream while `log stream` keeps producing lines, or a tail that opened). Otherwise it ends when the input runs out.

I/O is abstracted as data. Each scanned line carries the instant it was read; that instant is the `time.Now()` the record is stamped with. Each endless watch loop runs over a finite sequence of observations: poll outputs, streamed lines, or the file's contents at each successive read. A watcher that would still be looping after those observations is reported as `StillRunning`. `Seqs.FlatMap` is the shared "map, then concatenate in order" fold.

The code has no candidate-path fallback list, no journal fallback and no "source unavailable" error of its own; an explicit path that does not exist surfaces as the `os.Open` error. The tail never stops on a read error: it retries forever. The Windows poller ignores command failures. The macOS watcher stops when its scanner stops, at the end of the output or on a read error, and then returns what `cmd.Wait()` reports; the scanner's error itself is not returned.

## Model

| member | source | states |
|---|---|---|
| Text.TrimSpace | internal/analyzer/analyzer.go:71 | the trimmed line is a slice of the input with whitespace on both sides of it and none at either of its ends |
| Text.TrimSpaceUnique | internal/analyzer/analyzer.go:71 | that description determines TrimSpace: any such slice is the trimmed string |
| Text.TrimSpaceEmptyIff | internal/analyzer/analyzer.go:71-75 | a line trims to "" exactly when every character is whitespace, so only such lines are skipped |
| Text.TrimSpaceIdempotent | internal/analyzer/analyzer.go:178 | trimming again changes nothing, so `checkRules` re-trimming an already trimmed line is harmless |
| Text.ToLower | internal/analyzer/analyzer.go:78 | lower-casing keeps the length and lowers each ASCII letter in place |
| Text.ToLowerIdempotent | internal/analyzer/analyzer.go:78 | lower-casing twice is lower-casing once |
| Text.ContainsIff | internal/analyzer/analyzer.go:78 | `Contains` holds exactly when the pattern occurs at some offset of the line |
| Text.ContainsEmpty | internal/analyzer/analyzer.go:78 | every line contains the empty pattern |
| Matcher.RuleMatches | internal/analyzer/analyzer.go:78 | a rule fires on a line exactly when its lower-cased pattern occurs at some offset of the lower-cased line |
| Matcher.HitIndices | internal/analyzer/analyzer.go:77-87 | the positions of the firing rules: strictly increasing, in range, and containing a rule's position exactly when that rule fires |
| Matcher.MatchRules | internal/analyzer/analyzer.go:77-87 | the rule loop gives at most one record per rule, each carrying the line it was given and the read instant |
| Matcher.MatchRulesSpec | internal/analyzer/analyzer.go:77-87 | the rule loop yields one record per firing rule, in rule order, with no stop after the first hit |
| Matcher.Match | internal/analyzer/analyzer.go:69-88 | a line that is all whitespace yields nothing; every record carries the trimmed line and the read instant, and there are at most as many records as rules |
| Matcher.MatchSpec | internal/analyzer/analyzer.go:69-88 | a blank line yields nothing; otherwise each record holds the trimmed line and the firing rule's `Name` and `Type` |
| Matcher.MatchLoop | internal/analyzer/analyzer.go:77-87 | the index loop over the rules, as written, computes the rule-loop records |
| Matcher.AlertRules | internal/analyzer/analyzer.go:182-187 | the alert loop raises at most one alert per rule, each for the line it was given |
| Matcher.CheckRules | internal/analyzer/analyzer.go:177-181 | a blank line raises no alert |
| Matcher.CheckRulesAgrees | internal/analyzer/analyzer.go:177-188 | `checkRules` alerts on exactly the rules, in the same order and with the same line, that `AnalyzeFile` records for that line |
| Matcher.EmptyPatternMatchesAll | internal/analyzer/analyzer.go:78 | a rule with an empty pattern fires on, and is recorded for, every non-blank line |
| Matcher.MatchIgnoresCase | internal/analyzer/analyzer.go:78 | whether a rule fires does not depend on the case of ASCII letters in the line |
| Matcher.MatchTwoFiring | internal/analyzer/analyzer.go:77-87 | two rules that both fire on a trimmed line give two records, in rule order |
| Matcher.MatchScenarioTwoRules | internal/analyzer/analyzer.go:77-87 | "fail as root" against the rules "root" then "fail" gives two records for the same line, in rule order |
| Sources.FilePath | internal/analyzer/analyzer.go:55-57 | the opened path differs from the target only for `SYSTEM` on Linux, where it is `/var/log/syslog` |
| Sources.Resolve | internal/analyzer/analyzer.go:27-65 | the event-log query is chosen exactly for `SECURITY_LOGS` or `SYSTEM` on Windows; `log show` exactly on macOS; a file otherwise, at the path `FilePath` gives |
| Sources.ResolveDarwinIgnoresTarget | internal/analyzer/analyzer.go:41-42 | on macOS every target selects `log show` |
| Sources.ResolveSentinelsOffWindows | internal/analyzer/analyzer.go:54-60 | off Windows `SECURITY_LOGS` is opened as a file of that name, and `SYSTEM` is the syslog file on Linux only |
| Sources.SelectWatcher | internal/analyzer/analyzer.go:102-111 | `WatchFile` picks the live counterpart of the source `AnalyzeFile` picks, for every platform and target |
| Batch.Scan | internal/analyzer/analyzer.go:67-88 | every record of the scan is one the matcher gives for one of the scanned lines |
| Batch.ScanSingle | internal/analyzer/analyzer.go:69-88 | scanning one line gives that line's match records |
| Batch.ScanAppend | internal/analyzer/analyzer.go:67-88 | batch output is the per-line record sequences concatenated in input-line order |
| Batch.ScanLength | internal/analyzer/analyzer.go:67-88 | the number of records is the sum over lines of the number of firing rules |
| Batch.ScanBlank | internal/analyzer/analyzer.go:70-75 | lines that are all whitespace contribute no records |
| Batch.FromLaunch | internal/analyzer/analyzer.go:31-39 | a failed pipe or start returns no records and that error; a started process returns its scan and the scanner's error |
| Batch.FromOpening | internal/analyzer/analyzer.go:59-64 | a failed open returns no records and that error; an opened file returns its scan and the scanner's error |
| Batch.AnalyzeFile | internal/analyzer/analyzer.go:21-97 | `AnalyzeFile` reads the source `Resolve` selects, with the outcomes above |
| Batch.AnalyzeIgnoresExit | internal/analyzer/analyzer.go:90-92 | two worlds whose processes differ only in their exit statuses give the same analysis, for every platform and target |
| Batch.AnalyzeKeepsPartialResults | internal/analyzer/analyzer.go:96 | a scanner error is returned together with the records matched before it |
| Batch.ScanOne | internal/analyzer/analyzer.go:70-88 | one iteration of the scanning loop: a line that is all whitespace gives nothing; otherwise one record per firing rule, in rule order, holding the trimmed line, the rule's name and type, and the read instant |
| Batch.ScanLoop | internal/analyzer/analyzer.go:67-88 | the scanning loop, as written, computes the batch fold |
| Tail.NextNewline | internal/analyzer/analyzer.go:148 | the found position is the first newline at or after the offset; with none found, no newline follows the offset |
| Tail.TailStep | internal/analyzer/analyzer.go:144-154 | one `ReadString` of the buffered reader emits the available text up to and including its first newline and keeps the bytes after it buffered; with no newline it drops all the available text and moves past it; the offset never decreases |
| Tail.TailRun | internal/analyzer/analyzer.go:147-154 | the loop makes exactly one read per observed file state |
| Tail.TailRunMonotone | internal/analyzer/analyzer.go:147-154 | along a run the offset never moves back, and every emitted line starts at or after the starting offset |
| Tail.TailSkipsExistingContent | internal/analyzer/analyzer.go:139-143 | no emitted line starts before the file length at open time |
| Tail.DroppedTextNeverReported | internal/analyzer/analyzer.go:148-152 | text dropped at EOF is never reported by a later read |
| Tail.ReadAt | internal/analyzer/analyzer.go:148 | a read straight from the file emits the slice from the offset through the first newline, or drops the rest of the file when no newline follows |
| Tail.StepConsumes | internal/analyzer/analyzer.go:148-153 | on a prefix of the final file, one direct read consumes exactly the next slice after the offset |
| Tail.DirectAccountsForAppends | internal/analyzer/analyzer.go:147-154 | reading straight from a file whose states are prefixes of its final contents accounts for every byte after the start offset, once and in order |
| Tail.StepAgrees | internal/analyzer/analyzer.go:148 | while the buffer holds the file's own bytes, a buffered read returns what a direct read at the same offset returns, and the buffer stays in step |
| Tail.BufferedAgreesOnGrowth | internal/analyzer/analyzer.go:144-154 | on a file that only grows, the buffered loop reports exactly what reading straight from the file would |
| Tail.TailAccountsForAppends | internal/analyzer/analyzer.go:144-154 | on a growing file the emitted lines and dropped fragments, concatenated, are exactly the file from the start offset to the final one |
| Tail.TailAlerts | internal/analyzer/analyzer.go:153 | a run raises exactly the alerts `checkRules` gives on the lines it emitted; dropped text raises none |
| Tail.TailAlertsAppend | internal/analyzer/analyzer.go:147-154 | alerts come in the order of the reads: a run split in two raises the first part's alerts, then the second's |
| Tail.TailScenarioNewLineOnly | internal/analyzer/analyzer.go:139-154 | "A\nB\n" at start, then "C\n" appended: only "C\n" is read |
| Tail.TailScenarioSplitWrite | internal/analyzer/analyzer.go:148-152 | a line written as "ab" and then "c\n" loses "ab": only "c\n" is reported |
| Tail.ReadAheadScenario | internal/analyzer/analyzer.go:144-148 | "C\nD\n" read in one go, then rewritten in place as "XYZW\n": the second read still returns the buffered "D\n" |
| Tail.DirectScenario | internal/analyzer/analyzer.go:148 | on the same history a direct reader would return "ZW\n", so the read-ahead shows once the file stops merely growing |
| Watch.WatchWindows | internal/analyzer/analyzer.go:114-129 | the poller never returns, and every alert it raises comes from the output of a non-empty poll |
| Watch.PollGuardRedundant | internal/analyzer/analyzer.go:122-126 | the poller's emptiness guard changes no alert, because `checkRules` skips blank input |
| Watch.WatchMac | internal/analyzer/analyzer.go:157-175 | a failed pipe or start is returned; a stream still producing lines never returns; a stream whose scanner stopped returns the exit status and not the scanner's error; the alerts are those of a batch scan of the streamed lines |
| Watch.StreamAgreesWithScan | internal/analyzer/analyzer.go:170-173 | over the same lines the stream watcher alerts on exactly the records a batch scan collects |
| Watch.WatchTail | internal/analyzer/analyzer.go:131-154 | an open or seek failure is returned; otherwise the tail never returns, and it raises exactly the alerts of the lines its run emits |
| Watch.WatchTailOnGrowth | internal/analyzer/analyzer.go:139-154 | on a file that only grows, the live tail raises the alerts of a reader that reads each line straight from the file, starting at its length at open time |
| Watch.WatchFile | internal/analyzer/analyzer.go:100-112 | `WatchFile` runs the watcher matching the batch source of the same target |
| Cli.Aggregate | cmd/main.go:55-78 | every aggregated record was returned by the analysis of a configured target that reported no error |
| Cli.Failures | cmd/main.go:63-67 | every logged failure names a configured target together with the error its analysis returned |
| Cli.RunStaticAnalysis | cmd/main.go:55-80 | the aggregated records are the failure-free targets' records in configured order, each target analysed in a world of its own; failed targets are logged in order; the save prompt appears exactly when records were found |
| Cli.StaticStep | cmd/main.go:63-71 | one more target appends all of its records when it succeeded, or logs its error and adds nothing |
| Cli.NumberedSuffix | cmd/main.go:55-78 | the targets from a position on contribute what a run over just them, with their worlds renumbered, would aggregate |
| Cli.FailedTargetContributesNothing | cmd/main.go:63-67 | an erroring target adds nothing, and the targets before and after it are still aggregated, each with its own world |
| Cli.AggregateAppend | cmd/main.go:55-78 | the aggregate over two target lists is the two aggregates concatenated in order, the second list's targets keeping their positions |
| Cli.ScanErrorDiscardsPartialResults | cmd/main.go:63-67 | a file whose scanner fails part-way adds nothing, although `AnalyzeFile` returned its partial records |
| Cli.RunLiveMonitoring | cmd/main.go:115-123 | with no targets nothing is watched; otherwise exactly the first target is watched |
| Cli.LiveIgnoresLaterTargets | cmd/main.go:120-123 | targets after the first do not affect live monitoring |
| Cli.LiveNeverReturns | internal/analyzer/analyzer.go:100-175 | a live monitor never returns exactly when it is the Windows poller, the macOS stream while `log stream` keeps producing lines, or a tail whose open and seek succeeded |
| Cli.ParseChoice | cmd/main.go:32-45 | trimmed "1", "2" and "3" select static analysis, live monitoring and exit; any other input is invalid |
| Cli.SaysYes | cmd/main.go:83-86 | the save answer is yes exactly when it is a lone "y" or "Y" |
| Cli.PromptLines | cmd/main.go:80-109 | a static run reads one or two lines of its own: the save answer only when it offers to save, and the "Press enter" line unless a requested save could not create the report directory |
| Cli.Dispatch | cmd/main.go:32-45 | one menu turn does what the trimmed choice selects, one kind of event per choice: a "1" gives that line's static run with the save answer of the next line and reads past its menu line exactly the lines that run reads; a "2" gives that line's live run; an invalid line is rejected as typed; every choice other than "1" reads only its own line |
| Cli.RunsDispatch | cmd/main.go:36-39 | with the environment of one configuration, a "1" runs `runStaticAnalysis` over that line's worlds and a "2" runs `runLiveMonitoring` over that line's watch world |
| Cli.Session | cmd/main.go:27-46 | the menu loop yields at least one event and no more events than there are lines; only the last event can be an exit or a live monitor that never returns |
| Cli.Menu | cmd/main.go:25-46 | over standard input the menu yields one event per menu line it reads, none for empty input, the first chosen by the first trimmed line; only the last event can stop the loop |
| Cli.SessionFrom | cmd/main.go:27-46 | the loop from a line on depends only on the lines from there on |
| Cli.NothingReadAfterBlock | cmd/main.go:40-42 | once the loop has stopped at "3" or in a monitor that never returns, more input changes nothing: no later line is read |
| Cli.MenuIgnoresInputAfterStop | cmd/main.go:40-42 | lines typed after a "3", or after a live monitor that never returns, are never read |
| Cli.PressEnterLineIgnored | cmd/main.go:107-109 | the "Press enter" line read at the end of a static run is never dispatched: replacing it leaves the session unchanged |
| Cli.SaveAnswerNotDispatched | cmd/main.go:80-93 | the save answer is not a menu choice: it only decides whether the report is saved and, when the report directory cannot be created, whether the "Press enter" line is read |
| Cli.StaticThenExitScenario | cmd/main.go:27-46 | "1", "", "3" with no records found is a static run then an exit: the empty line is never a menu choice |
| Cli.FailedSaveScenario | cmd/main.go:86-93 | "1", "y", "3" when records are found but the report directory cannot be created: the run returns at once and "3" is the next menu line |
| Cli.LiveThenExitScenario | cmd/main.go:38-39 | "2" then "3" on Linux with a target that opens: the tail never returns, so the "3" is never read |
| Cli.MacLiveThenExitScenario | cmd/main.go:38-39 | "2" then "3" on macOS while `log stream` keeps producing lines: the watcher never returns, so the "3" is never read |

## Left out

- Process spawning, pipes and the PowerShell and `log` command lines. Each process source is an opaque outcome: a pipe failure, a start failure, or a stream plus an exit status. For `log stream` it may also be a stream that is still producing lines. The command strings are recorded as constants only.
- `bufio.Scanner` details. Splitting into tokens, `\r` stripping and the 64 KB token limit are not modelled; the scanner is given as its sequence of lines and its final error.
- Tail reads other than EOF. An I/O error in `ReadString` other than EOF is not modelled. A file that shrinks below the reader's offset yields empty retries, and rotation is not detected.
- The tail reader's buffer size. A fill in the model takes everything the file holds past its offset; `bufio.Reader` takes at most 4096 bytes per fill. The two differ only in how much is read ahead, which matters once a file is rewritten in place.
- Tail.TailAccountsForAppends: holds only for files that only grow. On a file rewritten in place the read-ahead makes the reported text differ from the file, as `Tail.ReadAheadScenario` shows.
- Timestamps. Every record of one line carries that line's read instant. Go calls `time.Now()` once per record, so records of one line may differ by nanoseconds.
- Sleeps and endless loops. The 2-second poll delay and the 500 ms retry delay are named constants only. Each endless loop runs over a finite sequence of observations, and nothing in the code cancels one.
- Unicode case mapping and invalid UTF-8. Go strings are byte strings. The model treats them as sequences of code points and lower-cases only ASCII letters.
- Printing. The per-target messages, the threat listing, and the text of alerts and log lines are not modelled. Alerts are a returned sequence of (rule name, line) pairs.
- Report saving. Whether `os.MkdirAll` fails for a save requested at a given line is an input. The file name built from the clock, the CSV writer (`internal/reporter/csv_reporter.go`) and its error message are I/O over library code and are not modelled.
- Standard input is an interactive terminal. Each read of the menu, of `fmt.Scanln` and of the fresh `bufio.Reader` behind "Press enter" takes exactly one line. With piped input the menu's reader reads ahead up to 4096 bytes, and the later readers would not see the lines it buffered; that case is not modelled.
- The save answer is one word. `fmt.Scanln` stores the first word of the line. When more words follow, it reports an error and leaves the rest of the line to the next reader. The model takes the answer as one whole line, trimmed and lower-cased.
- End of standard input in the menu. The code ignores the read error, so at end of input it would read "" forever and print "invalid choice" forever. The model's input is finite and the session simply ends with it.
- The Windows poller is not a per-event reader: each poll's combined output, error text included, is one "line". The PowerShell query itself is not modelled.
- Configuration loading. `internal/config/config.go` wraps a YAML library; only its `Rule` and `Config` record shapes are modelled.
- Matcher.CheckRules: its contract states only the blank-line case; what it reports on other lines is stated by `Matcher.CheckRulesAgrees`.
