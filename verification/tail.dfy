/** The tail loop of `watchLinuxLogs` (`internal/analyzer/analyzer.go`).

    The file is opened and its offset moved to the end (`Seek(0, 2)`); then
    `ReadString('\n')` of a `bufio.Reader` is called forever. The reader
    returns bytes it has already read ahead before it reads the file again.
    When a newline is found, the text up to and including it is returned
    and handed to `checkRules`. Otherwise the read reaches the end of the
    file and fails with EOF: everything read is thrown away, and the loop
    sleeps and tries again from where it stopped. The file is never
    reopened and its offset never rewound.

    The model is a step function over the reader's state (`TailStep`),
    driven by the file contents that successive reads observe. A second,
    simpler step function reads straight from the file at the offset
    (`ReadAt`); the two agree on a file that only grows
    (`BufferedAgreesOnGrowth`), and `ReadAheadScenario` shows where they
    part when the file is rewritten. */
module Tail {
  import opened Wrappers
  import opened Config
  import opened Matcher
  import opened Seqs

  /** What one `ReadString` call does. */
  datatype TailEvent =
    | Emit(start: nat, line: string)   // a complete line, the text at offset `start`
    | Retry(dropped: string)           // EOF: the partial text read is discarded

  /** The first newline at or after offset `k`. */
  function NextNewline(f: string, k: nat): (r: Option<nat>)
    decreases |f| - k
    ensures r.Some? ==> k <= r.value < |f| && f[r.value] == '\n'
    ensures r.Some? ==> forall m :: k <= m < r.value ==> f[m] != '\n'
    ensures r.None? ==> forall m :: k <= m < |f| ==> f[m] != '\n'
  {
    if k >= |f| then None
    else if f[k] == '\n' then Some(k)
    else NextNewline(f, k + 1)
  }

  /** The description of the first newline determines it. */
  lemma NextNewlineIs(f: string, k: nat, r: Option<nat>)
    requires r.Some? ==> k <= r.value < |f| && f[r.value] == '\n' && forall m :: k <= m < r.value ==> f[m] != '\n'
    requires r.None? ==> forall m :: k <= m < |f| ==> f[m] != '\n'
    ensures NextNewline(f, k) == r
  {
  }

  /** The state of the `bufio.Reader`: `off` is the file offset of the next
      byte `ReadString` returns, `buf` the bytes already read from the file
      but not yet returned. The file's own offset is `off + |buf|`. */
  datatype Reader = Reader(off: nat, buf: string)

  function FileOffset(r: Reader): nat {
    r.off + |r.buf|
  }

  /** The text one read can return: the buffered bytes, then whatever the
      file holds past its offset. */
  function Available(r: Reader, f: string): string {
    r.buf + (if FileOffset(r) < |f| then f[FileOffset(r)..] else [])
  }

  datatype Step = Step(reader: Reader, event: TailEvent)

  /** One `ReadString('\n')` on a file whose contents are `f`. A newline
      already buffered is served without touching the file; otherwise the
      reader reads what the file holds past its offset and looks for a
      newline in the new bytes; failing that it hits EOF and the whole
      buffered text is dropped. */
  function TailStep(r: Reader, f: string): (s: Step)
    ensures r.off <= s.reader.off
    ensures s.event.Emit? ==>
      var a := Available(r, f);
      var line := s.event.line;
      && s.event.start == r.off
      && 0 < |line| <= |a| && line == a[..|line|]
      && line[|line| - 1] == '\n'
      && (forall m :: 0 <= m < |line| - 1 ==> line[m] != '\n')
      && s.reader.off == r.off + |line|
      && |line| + |s.reader.buf| <= |a| && s.reader.buf == a[|line|..|line| + |s.reader.buf|]
    ensures s.event.Retry? ==>
      && s.event.dropped == Available(r, f)
      && (forall m :: 0 <= m < |s.event.dropped| ==> s.event.dropped[m] != '\n')
      && s.reader == Reader(r.off + |s.event.dropped|, [])
  {
    match NextNewline(r.buf, 0)
    case Some(k) =>
      Step(Reader(r.off + k + 1, r.buf[k + 1..]), Emit(r.off, r.buf[..k + 1]))
    case None =>
      var a := Available(r, f);
      assert forall m :: 0 <= m < |r.buf| ==> a[m] == r.buf[m];
      match NextNewline(a, |r.buf|)
      case Some(k) => Step(Reader(r.off + k + 1, a[k + 1..]), Emit(r.off, a[..k + 1]))
      case None => Step(Reader(r.off + |a|, []), Retry(a))
  }

  datatype Run = Run(reader: Reader, events: seq<TailEvent>)

  /** The loop of `watchLinuxLogs`, one read per observed file state. */
  function TailRun(r: Reader, observed: seq<string>): (run: Run)
    decreases |observed|
    ensures |run.events| == |observed|
  {
    if observed == [] then Run(r, [])
    else
      var s := TailStep(r, observed[0]);
      var rest := TailRun(s.reader, observed[1..]);
      Run(rest.reader, [s.event] + rest.events)
  }

  /** The reader after `Seek(0, 2)`: nothing buffered, at the length the
      file had at open time. */
  function TailStart(initial: string): Reader {
    Reader(|initial|, [])
  }

  /** The offset never moves backwards, and every line emitted starts at or
      after the offset the run began at. */
  lemma {:induction false} TailRunMonotone(r: Reader, observed: seq<string>)
    ensures r.off <= TailRun(r, observed).reader.off
    ensures forall k :: 0 <= k < |TailRun(r, observed).events| && TailRun(r, observed).events[k].Emit? ==>
      r.off <= TailRun(r, observed).events[k].start
    decreases |observed|
  {
    if observed != [] {
      var s := TailStep(r, observed[0]);
      TailRunMonotone(s.reader, observed[1..]);
      var rest := TailRun(s.reader, observed[1..]);
      assert TailRun(r, observed).events == [s.event] + rest.events;
      forall k | 0 <= k < |TailRun(r, observed).events| && TailRun(r, observed).events[k].Emit?
        ensures r.off <= TailRun(r, observed).events[k].start
      {
        if k > 0 {
          assert TailRun(r, observed).events[k] == rest.events[k - 1];
        }
      }
    }
  }

  /** Content present before the tail began is never reported: every line
      starts at or beyond the length the file had at open time. */
  lemma TailSkipsExistingContent(initial: string, observed: seq<string>, k: nat)
    requires k < |TailRun(TailStart(initial), observed).events|
    requires TailRun(TailStart(initial), observed).events[k].Emit?
    ensures TailRun(TailStart(initial), observed).events[k].start >= |initial|
  {
    TailRunMonotone(TailStart(initial), observed);
  }

  /** Text thrown away on EOF is never reported later: after a `Retry` the
      run continues from the end of the discarded text. */
  lemma DroppedTextNeverReported(r: Reader, f: string, later: seq<string>, k: nat)
    requires TailStep(r, f).event.Retry?
    requires k < |TailRun(TailStep(r, f).reader, later).events|
    requires TailRun(TailStep(r, f).reader, later).events[k].Emit?
    ensures TailRun(TailStep(r, f).reader, later).events[k].start >= r.off + |TailStep(r, f).event.dropped|
  {
    TailRunMonotone(TailStep(r, f).reader, later);
  }

  /** The text one read consumed: the line, or what was dropped. */
  function EventText(e: TailEvent): string {
    match e
    case Emit(_, line) => line
    case Retry(d) => d
  }

  function Consumed(events: seq<TailEvent>): string
  {
    if events == [] then [] else EventText(events[0]) + Consumed(events[1..])
  }

  /** A reference reader without read-ahead: one read straight from the
      file at offset `pos`. */
  datatype Direct = Direct(pos: nat, event: TailEvent)

  function ReadAt(pos: nat, f: string): (s: Direct)
    ensures pos <= s.pos
    ensures s.event.Emit? ==>
      && s.event.start == pos && pos < s.pos <= |f|
      && s.event.line == f[pos..s.pos]
      && s.event.line[|s.event.line| - 1] == '\n'
      && forall m :: 0 <= m < |s.event.line| - 1 ==> s.event.line[m] != '\n'
    ensures s.event.Retry? ==>
      && (forall m :: pos <= m < |f| ==> f[m] != '\n')
      && (pos <= |f| ==> s.pos == |f| && s.event.dropped == f[pos..])
      && (pos > |f| ==> s.pos == pos && s.event.dropped == [])
  {
    if pos >= |f| then
      Direct(pos, Retry([]))
    else
      match NextNewline(f, pos)
      case Some(k) =>
        var line := f[pos..k + 1];
        assert forall m :: 0 <= m < |line| - 1 ==> line[m] == f[pos + m];
        Direct(k + 1, Emit(pos, line))
      case None => Direct(|f|, Retry(f[pos..]))
  }

  datatype DirectRun = DirectRun(pos: nat, events: seq<TailEvent>)

  function ReadAtRun(pos: nat, observed: seq<string>): DirectRun
    decreases |observed|
  {
    if observed == [] then DirectRun(pos, [])
    else
      var s := ReadAt(pos, observed[0]);
      var rest := ReadAtRun(s.pos, observed[1..]);
      DirectRun(rest.pos, [s.event] + rest.events)
  }

  /** One direct read on a prefix of `full` consumes the next slice of `full`. */
  lemma StepConsumes(pos: nat, f: string, full: string)
    requires pos <= |full| && |f| <= |full| && f == full[..|f|]
    ensures pos <= ReadAt(pos, f).pos <= |full|
    ensures EventText(ReadAt(pos, f).event) == full[pos..ReadAt(pos, f).pos]
  {
    var s := ReadAt(pos, f);
    if s.event.Emit? {
      assert f[pos..s.pos] == full[pos..s.pos];
    } else if pos <= |f| {
      assert f[pos..] == full[pos..|f|];
    }
  }

  /** Every state observed is a prefix of the final contents `full`. */
  ghost predicate AppendOnly(observed: seq<string>, full: string) {
    forall i :: 0 <= i < |observed| ==> |observed[i]| <= |full| && observed[i] == full[..|observed[i]|]
  }

  /** A file that only grows: each state observed extends the one before. */
  ghost predicate Growing(observed: seq<string>, full: string) {
    && AppendOnly(observed, full)
    && forall i :: 0 <= i < |observed| - 1 ==> |observed[i]| <= |observed[i + 1]|
  }

  lemma AppendOnlyTail(observed: seq<string>, full: string)
    requires observed != [] && AppendOnly(observed, full)
    ensures AppendOnly(observed[1..], full)
  {
    forall i | 0 <= i < |observed[1..]| ensures |observed[1..][i]| <= |full| && observed[1..][i] == full[..|observed[1..][i]|] {
      assert observed[1..][i] == observed[i + 1];
    }
  }

  /** Reading straight from the file accounts for every byte after the
      start offset exactly once and in order, on a file whose states are
      all prefixes of its final contents. */
  lemma {:induction false} DirectAccountsForAppends(pos: nat, observed: seq<string>, full: string)
    requires pos <= |full| && AppendOnly(observed, full)
    ensures pos <= ReadAtRun(pos, observed).pos <= |full|
    ensures Consumed(ReadAtRun(pos, observed).events) == full[pos..ReadAtRun(pos, observed).pos]
    decreases |observed|
  {
    if observed != [] {
      var s := ReadAt(pos, observed[0]);
      StepConsumes(pos, observed[0], full);
      AppendOnlyTail(observed, full);
      DirectAccountsForAppends(s.pos, observed[1..], full);
      var rest := ReadAtRun(s.pos, observed[1..]);
      ConsumedCons(s.event, rest.events);
      SplitSlice(full, pos, s.pos, rest.pos);
    }
  }

  lemma ConsumedCons(e: TailEvent, rest: seq<TailEvent>)
    ensures Consumed([e] + rest) == EventText(e) + Consumed(rest)
  {
    assert ([e] + rest)[1..] == rest;
  }

  lemma SplitSlice(s: string, i: nat, j: nat, k: nat)
    requires i <= j <= k <= |s|
    ensures s[i..k] == s[i..j] + s[j..k]
  {
  }

  /** The buffered bytes are the file's bytes at the reader's offset. */
  ghost predicate Synced(r: Reader, f: string) {
    r.buf == [] || (FileOffset(r) <= |f| && r.buf == f[r.off..FileOffset(r)])
  }

  lemma SyncedExtends(r: Reader, f: string, g: string)
    requires Synced(r, f) && |f| <= |g| && f == g[..|f|]
    ensures Synced(r, g)
  {
    if r.buf != [] {
      assert f[r.off..FileOffset(r)] == g[r.off..FileOffset(r)];
    }
  }

  /** While the buffer holds the file's own bytes, a buffered read returns
      what a direct read at the same offset returns, and stays in step. */
  lemma StepAgrees(r: Reader, f: string)
    requires Synced(r, f)
    ensures TailStep(r, f).event == ReadAt(r.off, f).event
    ensures TailStep(r, f).reader.off == ReadAt(r.off, f).pos
    ensures Synced(TailStep(r, f).reader, f)
  {
    match NextNewline(r.buf, 0)
    case Some(k) => ServedFromBuffer(r, f, k);
    case None =>
      if FileOffset(r) >= |f| {
        ServedAtEof(r, f);
      } else {
        ServedAfterFill(r, f);
      }
  }

  lemma ServedFromBuffer(r: Reader, f: string, k: nat)
    requires Synced(r, f) && NextNewline(r.buf, 0) == Some(k)
    ensures TailStep(r, f) == Step(Reader(r.off + k + 1, r.buf[k + 1..]), Emit(r.off, r.buf[..k + 1]))
    ensures ReadAt(r.off, f) == Direct(r.off + k + 1, Emit(r.off, r.buf[..k + 1]))
    ensures Synced(TailStep(r, f).reader, f)
  {
    BufferedNewline(r, f, k);
    assert r.buf[k + 1..] == f[r.off + k + 1..FileOffset(r)];
  }

  /** The newline is in the buffered bytes, which are the file's own: a
      direct read finds it at the same place. */
  lemma BufferedNewline(r: Reader, f: string, k: nat)
    requires Synced(r, f) && NextNewline(r.buf, 0) == Some(k)
    ensures ReadAt(r.off, f) == Direct(r.off + k + 1, Emit(r.off, r.buf[..k + 1]))
  {
    var off, buf := r.off, r.buf;
    assert f[off + k] == buf[k];
    assert forall j :: off <= j < off + k ==> f[j] == buf[j - off];
    NextNewlineIs(f, off, Some(off + k));
    assert buf[..k + 1] == f[off..off + k + 1];
  }

  lemma ServedAtEof(r: Reader, f: string)
    requires Synced(r, f) && NextNewline(r.buf, 0) == None && FileOffset(r) >= |f|
    ensures TailStep(r, f) == Step(Reader(FileOffset(r), []), Retry(r.buf))
    ensures ReadAt(r.off, f) == Direct(FileOffset(r), Retry(r.buf))
  {
    assert Available(r, f) == r.buf;
    if r.buf != [] {
      assert forall j :: r.off <= j < |f| ==> f[j] == r.buf[j - r.off];
      NextNewlineIs(f, r.off, None);
      assert f[r.off..] == r.buf;
    }
  }

  lemma ServedAfterFill(r: Reader, f: string)
    requires Synced(r, f) && NextNewline(r.buf, 0) == None && FileOffset(r) < |f|
    ensures TailStep(r, f).event == ReadAt(r.off, f).event
    ensures TailStep(r, f).reader.off == ReadAt(r.off, f).pos
    ensures TailStep(r, f).reader.buf == [] || FileOffset(TailStep(r, f).reader) == |f|
    ensures TailStep(r, f).reader.buf == f[TailStep(r, f).reader.off..FileOffset(TailStep(r, f).reader)]
  {
    SyncedAvailable(r, f);
    match NextNewline(Available(r, f), |r.buf|)
    case Some(k) => FillFindsNewline(r, f, k);
    case None => FillFindsNone(r, f);
  }

  /** A synced reader can return exactly the file's bytes from its offset. */
  lemma SyncedAvailable(r: Reader, f: string)
    requires Synced(r, f) && FileOffset(r) <= |f|
    ensures Available(r, f) == f[r.off..]
  {
    if r.buf != [] {
      assert f[r.off..] == f[r.off..FileOffset(r)] + f[FileOffset(r)..];
    }
  }

  /** The bytes read past the buffer hold a newline: the line ends there,
      where a direct read ends it too, and the rest is buffered. */
  lemma FillFindsNewline(r: Reader, f: string, k: nat)
    requires FileOffset(r) < |f| && Available(r, f) == f[r.off..]
    requires NextNewline(r.buf, 0) == None && NextNewline(Available(r, f), |r.buf|) == Some(k)
    ensures TailStep(r, f) == Step(Reader(r.off + k + 1, f[r.off + k + 1..]), Emit(r.off, f[r.off..r.off + k + 1]))
    ensures ReadAt(r.off, f) == Direct(r.off + k + 1, Emit(r.off, f[r.off..r.off + k + 1]))
    ensures FileOffset(TailStep(r, f).reader) == |f|
    ensures TailStep(r, f).reader.buf == f[TailStep(r, f).reader.off..FileOffset(TailStep(r, f).reader)]
  {
    FilledLine(r, f, k);
    FirstNewlineAfterBuffer(r, f, k);
    assert f[r.off + k + 1..] == f[r.off + k + 1..|f|];
  }

  /** The buffered side: the line up to the newline found in the new
      bytes is returned and the rest stays buffered. */
  lemma FilledLine(r: Reader, f: string, k: nat)
    requires r.off <= |f| && Available(r, f) == f[r.off..]
    requires NextNewline(r.buf, 0) == None && NextNewline(Available(r, f), |r.buf|) == Some(k)
    ensures TailStep(r, f) == Step(Reader(r.off + k + 1, f[r.off + k + 1..]), Emit(r.off, f[r.off..r.off + k + 1]))
  {
    var a := Available(r, f);
    assert a[..k + 1] == f[r.off..r.off + k + 1];
    assert a[k + 1..] == f[r.off + k + 1..];
  }

  /** The direct side: the newline found past the buffer is the first one
      after the offset in the file. */
  lemma FirstNewlineAfterBuffer(r: Reader, f: string, k: nat)
    requires r.off <= |f| && Available(r, f) == f[r.off..]
    requires NextNewline(r.buf, 0) == None && NextNewline(Available(r, f), |r.buf|) == Some(k)
    ensures ReadAt(r.off, f) == Direct(r.off + k + 1, Emit(r.off, f[r.off..r.off + k + 1]))
  {
    var off, a := r.off, Available(r, f);
    assert forall m :: 0 <= m < |r.buf| ==> a[m] == r.buf[m];
    assert forall j :: off <= j < off + k ==> f[j] == a[j - off];
    assert f[off + k] == a[k];
    NextNewlineIs(f, off, Some(off + k));
  }

  /** No newline anywhere past the offset: both readers reach EOF and drop
      the same text. */
  lemma FillFindsNone(r: Reader, f: string)
    requires FileOffset(r) < |f| && Available(r, f) == f[r.off..]
    requires NextNewline(r.buf, 0) == None && NextNewline(Available(r, f), |r.buf|) == None
    ensures TailStep(r, f) == Step(Reader(|f|, []), Retry(f[r.off..]))
    ensures ReadAt(r.off, f) == Direct(|f|, Retry(f[r.off..]))
  {
    var off, a := r.off, Available(r, f);
    assert forall m :: 0 <= m < |r.buf| ==> a[m] == r.buf[m];
    assert forall j :: off <= j < |f| ==> f[j] == a[j - off];
    NextNewlineIs(f, off, None);
  }

  /** On a file that only grows the read-ahead buffer is invisible: the
      buffered loop reports exactly what reading straight from the file
      at the same offset would. */
  lemma {:induction false} BufferedAgreesOnGrowth(r: Reader, observed: seq<string>, full: string)
    requires Growing(observed, full)
    requires observed != [] ==> Synced(r, observed[0])
    ensures TailRun(r, observed).events == ReadAtRun(r.off, observed).events
    ensures TailRun(r, observed).reader.off == ReadAtRun(r.off, observed).pos
    decreases |observed|
  {
    if observed != [] {
      var f := observed[0];
      var s := TailStep(r, f);
      StepAgrees(r, f);
      AppendOnlyTail(observed, full);
      assert Growing(observed[1..], full) by {
        forall i | 0 <= i < |observed[1..]| - 1 ensures |observed[1..][i]| <= |observed[1..][i + 1]| {
          assert observed[1..][i] == observed[i + 1] && observed[1..][i + 1] == observed[i + 2];
        }
      }
      if |observed| > 1 {
        var g := observed[1];
        assert |f| <= |g| && f == full[..|f|] && g == full[..|g|];
        assert f == g[..|f|];
        SyncedExtends(s.reader, f, g);
        assert observed[1..][0] == g;
      }
      BufferedAgreesOnGrowth(s.reader, observed[1..], full);
    }
  }

  /** On a growing file the tail accounts for every byte after its start
      exactly once and in order: the emitted lines and the dropped
      fragments, concatenated, are the file from the start offset to the
      final one. */
  lemma TailAccountsForAppends(pos: nat, observed: seq<string>, full: string)
    requires pos <= |full| && Growing(observed, full)
    ensures pos <= TailRun(Reader(pos, []), observed).reader.off <= |full|
    ensures Consumed(TailRun(Reader(pos, []), observed).events) == full[pos..TailRun(Reader(pos, []), observed).reader.off]
  {
    BufferedAgreesOnGrowth(Reader(pos, []), observed, full);
    DirectAccountsForAppends(pos, observed, full);
  }

  /** The alerts one read raises: `checkRules` on an emitted line, none
      for dropped text. */
  function ReadAlerts(rules: seq<Rule>): TailEvent -> seq<Alert>
  {
    (e: TailEvent) => if e.Emit? then CheckRules(e.line, rules) else []
  }

  /** The alerts raised along a run: `checkRules` on every emitted line,
      and nothing else. */
  function TailAlerts(events: seq<TailEvent>, rules: seq<Rule>): (r: seq<Alert>)
    ensures forall a :: a in r ==> exists i :: 0 <= i < |events| && events[i].Emit? && a in CheckRules(events[i].line, rules)
    ensures forall i, a :: 0 <= i < |events| && events[i].Emit? && a in CheckRules(events[i].line, rules) ==> a in r
  {
    FlatMapMembers(events, ReadAlerts(rules));
    FlatMapCovers(events, ReadAlerts(rules));
    FlatMap(events, ReadAlerts(rules))
  }

  /** The alerts of a run are raised in the order of its reads: a run
      split in two raises those of the first part, then those of the
      second. */
  lemma TailAlertsAppend(a: seq<TailEvent>, b: seq<TailEvent>, rules: seq<Rule>)
    ensures TailAlerts(a + b, rules) == TailAlerts(a, rules) + TailAlerts(b, rules)
  {
    FlatMapAppend(a, b, ReadAlerts(rules));
  }

  /** A file holding "A\nB\n" when the tail starts, which then gains "C\n":
      only "C\n" is read. */
  lemma TailScenarioNewLineOnly()
    ensures TailRun(TailStart("A\nB\n"), ["A\nB\nC\n"]).events == [Emit(4, "C\n")]
  {
    var f := "A\nB\nC\n";
    var a := Available(Reader(4, []), f);
    assert a == "C\n";
    assert NextNewline("", 0) == None;
    assert NextNewline(a, 0) == Some(1) by {
      assert a[0] == 'C' && a[1] == '\n';
    }
    assert a[..2] == "C\n";
  }

  /** A line written in two pieces: the first piece is read at EOF and
      dropped, so only the rest of the line is reported. */
  lemma TailScenarioSplitWrite()
    ensures TailRun(Reader(0, []), ["ab", "abc\n"]).events == [Retry("ab"), Emit(2, "c\n")]
  {
    assert NextNewline("", 0) == None;
    assert Available(Reader(0, []), "ab") == "ab";
    assert NextNewline("ab", 0) == None;
    var a := Available(Reader(2, []), "abc\n");
    assert a == "c\n";
    assert NextNewline(a, 0) == Some(1) by {
      assert a[0] == 'c' && a[1] == '\n';
    }
    assert a[..2] == "c\n";
  }

  /** Read-ahead on a rewritten file: "C\nD\n" is read in one go, then the
      file is rewritten in place as "XYZW\n"; the second read still returns
      the buffered "D\n". */
  lemma ReadAheadScenario()
    ensures TailRun(Reader(0, []), ["C\nD\n", "XYZW\n"]).events == [Emit(0, "C\n"), Emit(2, "D\n")]
  {
    var f, g := "C\nD\n", "XYZW\n";
    ReadAheadFills(f);
    ServedFromBufferOnly(g);
    assert [f, g][1..] == [g];
    assert TailRun(Reader(2, "D\n"), [g]).events == [Emit(2, "D\n")];
  }

  /** The first read takes "C\nD\n" in one go and keeps "D\n" buffered. */
  lemma ReadAheadFills(f: string)
    requires f == "C\nD\n"
    ensures TailStep(Reader(0, []), f) == Step(Reader(2, "D\n"), Emit(0, "C\n"))
  {
    assert NextNewline("", 0) == None;
    assert Available(Reader(0, []), f) == f;
    assert NextNewline(f, 0) == Some(1) by {
      assert f[0] == 'C' && f[1] == '\n';
    }
    assert f[..2] == "C\n" && f[2..] == "D\n";
  }

  /** The second read serves the buffered "D\n" whatever the file holds. */
  lemma ServedFromBufferOnly(g: string)
    ensures TailStep(Reader(2, "D\n"), g) == Step(Reader(4, []), Emit(2, "D\n"))
  {
    var b := "D\n";
    assert NextNewline(b, 0) == Some(1) by {
      assert b[0] == 'D' && b[1] == '\n';
    }
    assert b[..2] == "D\n" && b[2..] == "";
  }

  /** Read straight from the file, the same history gives "ZW\n" instead:
      the two readers part once the file stops merely growing. */
  lemma DirectScenario()
    ensures ReadAtRun(0, ["C\nD\n", "XYZW\n"]).events == [Emit(0, "C\n"), Emit(2, "ZW\n")]
  {
    var f := "C\nD\n";
    assert NextNewline(f, 0) == Some(1) by {
      assert f[0] == 'C' && f[1] == '\n';
    }
    var g := "XYZW\n";
    assert NextNewline(g, 2) == Some(4) by {
      assert g[2] == 'Z' && g[3] == 'W' && g[4] == '\n';
    }
    assert f[0..2] == "C\n" && g[2..5] == "ZW\n";
  }
}
