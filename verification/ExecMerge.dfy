/** Collecting the result of one framed command from a session log where stdout and stderr lines interleave. */
module ExecMerge {
  import opened Wrappers

  // ---------------------------------------------------------------- text

  predicate OccursAt(s: string, part: string, i: nat) {
    i + |part| <= |s| && s[i..i + |part|] == part
  }

  predicate Contains(s: string, part: string) {
    exists i :: 0 <= i <= |s| && OccursAt(s, part, i)
  }

  /** The last place `part` occurs at or before `from`. */
  function LastAt(s: string, part: string, from: nat): (r: Option<nat>)
    ensures r.Some? ==> r.value <= from && OccursAt(s, part, r.value)
    ensures r.Some? ==> forall i :: r.value < i <= from ==> !OccursAt(s, part, i)
    ensures r.None? ==> forall i :: 0 <= i <= from ==> !OccursAt(s, part, i)
  {
    if OccursAt(s, part, from) then Some(from)
    else if from == 0 then None
    else LastAt(s, part, from - 1)
  }

  function SplitAtSpace(s: string): (r: Option<(string, string)>)
    ensures r.Some? ==> ' ' !in r.value.0 && s == r.value.0 + " " + r.value.1
    ensures r.None? ==> ' ' !in s
  {
    if s == "" then None
    else if s[0] == ' ' then Some(("", s[1..]))
    else
      match SplitAtSpace(s[1..])
      case None => None
      case Some((a, b)) => Some(([s[0]] + a, b))
  }

  function StripSuffix(s: string, suffix: string): (r: Option<string>)
    ensures r.Some? <==> |suffix| <= |s| && s[|s| - |suffix|..] == suffix
    ensures r.Some? ==> s == r.value + suffix
  {
    if |suffix| <= |s| && s[|s| - |suffix|..] == suffix then Some(s[..|s| - |suffix|]) else None
  }

  predicate IsDigitChar(c: char) {
    '0' <= c <= '9'
  }

  function Natural(s: string): nat
    requires forall i :: 0 <= i < |s| ==> IsDigitChar(s[i])
  {
    if s == "" then 0
    else
      var last := s[|s| - 1];
      assert IsDigitChar(last);
      10 * Natural(s[..|s| - 1]) + (last as int - '0' as int)
  }

  /** A signed 32-bit number, its sign optional. */
  function ParseInt(s: string): Option<int> {
    var digits := if s != "" && (s[0] == '+' || s[0] == '-') then s[1..] else s;
    if digits == "" || exists i :: 0 <= i < |digits| && !IsDigitChar(digits[i]) then None
    else
      var n: int := if s[0] == '-' then -(Natural(digits) as int) else Natural(digits);
      if -0x8000_0000 <= n < 0x8000_0000 then Some(n) else None
  }

  // ---------------------------------------------------------------- the frame's two lines

  const EXEC_MARKER := "__TENDR_EXEC__ "
  const EXEC_ERR_MARKER := "__TENDR_EXEC_ERR__"

  datatype Sentinel = Sentinel(residual: string, code: int, cwd: string)

  function ParseSentinel(line: string, token: string): Option<Sentinel> {
    var needle := EXEC_MARKER + token + " ";
    match LastAt(line, needle, |line|)
    case None => None
    case Some(at) =>
      match SplitAtSpace(line[at + |needle|..])
      case None => None
      case Some((code, cwd)) =>
        match ParseInt(code)
        case None => None
        case Some(n) => Some(Sentinel(line[..at], n, cwd))
  }

  function ParseErrMarker(line: string, token: string): Option<string> {
    match StripSuffix(line, token)
    case None => None
    case Some(a) =>
      match StripSuffix(a, " ")
      case None => None
      case Some(b) => StripSuffix(b, EXEC_ERR_MARKER)
  }

  // ---------------------------------------------------------------- the scan

  /** A log line: text of one of the two streams, or anything the scan skips. */
  datatype LogLine = Out(content: string) | Err(content: string) | Skipped

  datatype Scan = Scan(stdout: seq<string>, stderr: seq<string>, sentinel: Option<(int, string)>, marked: bool)

  function WithResidual(lines: seq<string>, residual: string): seq<string> {
    if residual == "" then lines else lines + [residual]
  }

  function Fresh(needsMarker: bool): Scan {
    Scan([], [], None, !needsMarker)
  }

  function ReadLine(s: Scan, line: LogLine, token: string, needsMarker: bool): Scan {
    match line
    case Skipped => s
    case Out(content) =>
      var sentinel := ParseSentinel(content, token);
      var marker := if needsMarker then ParseErrMarker(content, token) else None;
      if sentinel.Some? then
        s.(stdout := WithResidual(s.stdout, sentinel.value.residual),
           sentinel := if s.sentinel.Some? then s.sentinel else Some((sentinel.value.code, sentinel.value.cwd)))
      else if marker.Some? then s.(stdout := WithResidual(s.stdout, marker.value), marked := true)
      else s.(stdout := s.stdout + [content])
    case Err(content) =>
      var marker := if needsMarker then ParseErrMarker(content, token) else None;
      if marker.Some? then s.(stderr := WithResidual(s.stderr, marker.value), marked := true)
      else s.(stderr := s.stderr + [content])
  }

  predicate Complete(s: Scan) {
    s.sentinel.Some? && s.marked
  }

  /** Reading stops as soon as the result is complete. */
  function ScanLog(log: seq<LogLine>, token: string, needsMarker: bool): Scan {
    if log == [] then Fresh(needsMarker)
    else
      var s := ScanLog(log[..|log| - 1], token, needsMarker);
      if Complete(s) then s else ReadLine(s, log[|log| - 1], token, needsMarker)
  }

  /** The lines joined as one text. */
  function Joined(lines: seq<string>): string {
    if lines == [] then ""
    else if |lines| == 1 then lines[0]
    else Joined(lines[..|lines| - 1]) + "\n" + lines[|lines| - 1]
  }

  datatype ExecResult = ExecResult(stdout: string, stderr: string, exitCode: int, cwdAfter: string)

  function ResultOf(s: Scan): Option<ExecResult> {
    if Complete(s) then Some(ExecResult(Joined(s.stdout), Joined(s.stderr), s.sentinel.value.0, s.sentinel.value.1)) else None
  }

  // ---------------------------------------------------------------- the two lanes

  function OutLane(log: seq<LogLine>): seq<string> {
    if log == [] then []
    else
      var last := log[|log| - 1];
      OutLane(log[..|log| - 1]) + if last.Out? then [last.content] else []
  }

  function ErrLane(log: seq<LogLine>): seq<string> {
    if log == [] then []
    else
      var last := log[|log| - 1];
      ErrLane(log[..|log| - 1]) + if last.Err? then [last.content] else []
  }

  /** What stdout lines give on their own. */
  function ReadOut(lines: seq<string>, token: string, needsMarker: bool): Scan {
    if lines == [] then Scan([], [], None, false)
    else ReadLine(ReadOut(lines[..|lines| - 1], token, needsMarker), Out(lines[|lines| - 1]), token, needsMarker)
  }

  function ReadErr(lines: seq<string>, token: string, needsMarker: bool): Scan {
    if lines == [] then Scan([], [], None, false)
    else ReadLine(ReadErr(lines[..|lines| - 1], token, needsMarker), Err(lines[|lines| - 1]), token, needsMarker)
  }

  /** The two lanes' parts put together. */
  function Merged(out: Scan, err: Scan, needsMarker: bool): Scan {
    Scan(out.stdout, err.stderr, out.sentinel, !needsMarker || out.marked || err.marked)
  }

  /** Whatever the interleaving, a scan not complete before is what the two lanes give. */
  lemma {:induction false} ScanByLane(log: seq<LogLine>, token: string, needsMarker: bool)
    requires forall k :: 0 <= k < |log| ==> !Complete(ScanLog(log[..k], token, needsMarker))
    ensures ScanLog(log, token, needsMarker)
            == Merged(ReadOut(OutLane(log), token, needsMarker), ReadErr(ErrLane(log), token, needsMarker), needsMarker)
  {
    hide ReadLine, ReadOut, ReadErr, OutLane, ErrLane, Complete, Merged;
    if log == [] {
      NothingInLanes(token, needsMarker);
    } else {
      var n := |log| - 1;
      assert log[..n] == log[..|log| - 1];
      forall k | 0 <= k < n ensures !Complete(ScanLog(log[..n][..k], token, needsMarker)) {
        assert log[..n][..k] == log[..k];
      }
      ScanByLane(log[..n], token, needsMarker);
      LaneMore(log, token, needsMarker);
      MergedMore(ReadOut(OutLane(log[..n]), token, needsMarker), ReadErr(ErrLane(log[..n]), token, needsMarker),
                 log[n], token, needsMarker);
    }
  }

  lemma NothingInLanes(token: string, needsMarker: bool)
    ensures Merged(ReadOut(OutLane([]), token, needsMarker), ReadErr(ErrLane([]), token, needsMarker), needsMarker)
            == Fresh(needsMarker)
  {
  }

  /** One more line of the log is one more of its lane, or of neither. */
  lemma MergedMore(out: Scan, err: Scan, line: LogLine, token: string, needsMarker: bool)
    ensures ReadLine(Merged(out, err, needsMarker), line, token, needsMarker)
            == match line
               case Out(_) => Merged(ReadLine(out, line, token, needsMarker), err, needsMarker)
               case Err(_) => Merged(out, ReadLine(err, line, token, needsMarker), needsMarker)
               case Skipped => Merged(out, err, needsMarker)
  {
    hide ParseSentinel, ParseErrMarker;
  }

  lemma {:induction false} LaneMore(log: seq<LogLine>, token: string, needsMarker: bool)
    requires log != []
    ensures var (before, last) := (log[..|log| - 1], log[|log| - 1]);
      && (last.Out? ==> ReadOut(OutLane(log), token, needsMarker)
                        == ReadLine(ReadOut(OutLane(before), token, needsMarker), last, token, needsMarker))
      && (!last.Out? ==> OutLane(log) == OutLane(before))
      && (last.Err? ==> ReadErr(ErrLane(log), token, needsMarker)
                        == ReadLine(ReadErr(ErrLane(before), token, needsMarker), last, token, needsMarker))
      && (!last.Err? ==> ErrLane(log) == ErrLane(before))
  {
    hide ReadLine;
    var before := log[..|log| - 1];
    var (o, e) := (OutLane(before), ErrLane(before));
    assert forall x: string :: (o + [x])[..|o|] == o && (e + [x])[..|e|] == e;
  }

  // ---------------------------------------------------------------- lines without the token

  lemma {:induction false} SuffixOccurs(s: string, suffix: string)
    requires StripSuffix(s, suffix).Some?
    ensures Contains(s, suffix)
  {
    assert OccursAt(s, suffix, |s| - |suffix|);
  }

  lemma {:induction false} PartOccurs(s: string, a: string, part: string, b: string, i: nat)
    requires OccursAt(s, a + part + b, i)
    ensures OccursAt(s, part, i + |a|)
  {
    var whole, j := a + part + b, i + |a|;
    forall k | 0 <= k < |part| ensures s[j..j + |part|][k] == part[k] {
      assert s[i..i + |whole|][|a| + k] == whole[|a| + k];
    }
  }

  lemma {:induction false} PlainLine(line: string, token: string)
    requires !Contains(line, token)
    ensures ParseSentinel(line, token).None? && ParseErrMarker(line, token).None?
  {
    hide ParseInt;
    var needle := EXEC_MARKER + token + " ";
    var at := LastAt(line, needle, |line|);
    if at.Some? {
      PartOccurs(line, EXEC_MARKER, token, " ", at.value);
    }
    if StripSuffix(line, token).Some? {
      SuffixOccurs(line, token);
    }
  }

  predicate Plain(lines: seq<string>, token: string) {
    forall i :: 0 <= i < |lines| ==> !Contains(lines[i], token)
  }

  /** A plain line is its lane's next line. */
  lemma PlainNext(s: Scan, line: string, token: string, needsMarker: bool)
    requires !Contains(line, token)
    ensures ReadLine(s, Out(line), token, needsMarker) == s.(stdout := s.stdout + [line])
    ensures ReadLine(s, Err(line), token, needsMarker) == s.(stderr := s.stderr + [line])
  {
    hide Contains, ParseSentinel, ParseErrMarker;
    PlainLine(line, token);
  }

  lemma {:induction false} PlainOut(lines: seq<string>, token: string, needsMarker: bool)
    requires Plain(lines, token)
    ensures ReadOut(lines, token, needsMarker) == Scan(lines, [], None, false)
  {
    hide Contains, ReadLine;
    if lines != [] {
      var n := |lines| - 1;
      PlainOut(lines[..n], token, needsMarker);
      PlainNext(Scan(lines[..n], [], None, false), lines[n], token, needsMarker);
      assert lines == lines[..n] + [lines[n]];
    }
  }

  lemma {:induction false} PlainErr(lines: seq<string>, token: string, needsMarker: bool)
    requires Plain(lines, token)
    ensures ReadErr(lines, token, needsMarker) == Scan([], lines, None, false)
  {
    hide Contains, ReadLine;
    if lines != [] {
      var n := |lines| - 1;
      PlainErr(lines[..n], token, needsMarker);
      PlainNext(Scan([], lines[..n], None, false), lines[n], token, needsMarker);
      assert lines == lines[..n] + [lines[n]];
    }
  }

  // ---------------------------------------------------------------- the frame's lines read back

  /** The stdout sentinel, after whatever the command left on its line. */
  function SentinelLine(residual: string, token: string, code: string, cwd: string): string {
    residual + EXEC_MARKER + token + " " + code + " " + cwd
  }

  function MarkerLine(residual: string, token: string): string {
    residual + EXEC_ERR_MARKER + " " + token
  }

  /** The token is nowhere in the sentinel line but in its own place. */
  predicate TokenOnce(residual: string, token: string, code: string, cwd: string) {
    var line := SentinelLine(residual, token, code, cwd);
    forall i :: 0 <= i <= |line| && OccursAt(line, token, i) ==> i == |residual| + |EXEC_MARKER|
  }

  lemma {:induction false} SplitFirst(a: string, b: string)
    requires ' ' !in a
    ensures SplitAtSpace(a + " " + b) == Some((a, b))
  {
    var s := a + " " + b;
    if a == "" {
      assert s[1..] == b;
    } else {
      SplitFirst(a[1..], b);
      assert s[1..] == a[1..] + " " + b && s[0] == a[0];
      assert [s[0]] + a[1..] == a;
    }
  }

  lemma {:induction false} SentinelReads(residual: string, token: string, code: string, cwd: string)
    requires TokenOnce(residual, token, code, cwd) && ' ' !in code && ParseInt(code).Some?
    ensures ParseSentinel(SentinelLine(residual, token, code, cwd), token)
            == Some(Sentinel(residual, ParseInt(code).value, cwd))
  {
    hide ParseInt, OccursAt, LastAt, SplitAtSpace, SentinelLine;
    var needle := EXEC_MARKER + token + " ";
    var rest := code + " " + cwd;
    var line := SentinelLine(residual, token, code, cwd);
    SentinelParts(residual, token, code, cwd);
    ThreeParts(residual, needle, rest);
    var at := LastAt(line, needle, |line|);
    assert at.Some? && at.value >= |residual|;
    PartOccurs(line, EXEC_MARKER, token, " ", at.value);
    assert at.value == |residual|;
    SplitFirst(code, cwd);
  }

  lemma SentinelParts(residual: string, token: string, code: string, cwd: string)
    ensures SentinelLine(residual, token, code, cwd) == residual + (EXEC_MARKER + token + " ") + (code + " " + cwd)
  {
  }

  lemma ThreeParts(a: string, b: string, c: string)
    ensures OccursAt(a + b + c, b, |a|) && (a + b + c)[|a| + |b|..] == c && (a + b + c)[..|a|] == a
  {
    assert (a + b + c)[|a|..|a| + |b|] == b;
  }

  lemma {:induction false} MarkerReads(residual: string, token: string)
    ensures ParseErrMarker(MarkerLine(residual, token), token) == Some(residual)
  {
    var line := MarkerLine(residual, token);
    assert line[|line| - |token|..] == token;
    var a := line[..|line| - |token|];
    assert a == residual + EXEC_ERR_MARKER + " ";
    assert a[|a| - 1..] == " ";
    var b := a[..|a| - 1];
    assert b == residual + EXEC_ERR_MARKER;
    assert b[|b| - |EXEC_ERR_MARKER|..] == EXEC_ERR_MARKER && b[..|b| - |EXEC_ERR_MARKER|] == residual;
  }

  // ---------------------------------------------------------------- the result does not depend on the interleaving

  /** The two lanes of one framed command, its sentinel and its end marker last. */
  predicate Framed(log: seq<LogLine>, out: seq<string>, sentinel: string, err: seq<string>, marker: string) {
    OutLane(log) == out + [sentinel] && ErrLane(log) == err + [marker]
  }

  lemma {:induction false} LanesGrow(log: seq<LogLine>, k: nat)
    requires k <= |log|
    ensures OutLane(log[..k]) <= OutLane(log) && ErrLane(log[..k]) <= ErrLane(log)
  {
    if k < |log| {
      var n := |log| - 1;
      assert log[..n][..k] == log[..k];
      LanesGrow(log[..n], k);
    } else {
      assert log[..k] == log;
    }
  }

  lemma {:induction false} PlainStart(lines: seq<string>, last: string, start: seq<string>, token: string)
    requires Plain(lines, token) && start <= lines + [last]
    ensures start == lines + [last] || (start <= lines && Plain(start, token))
  {
    hide Contains;
    if |start| <= |lines| {
      assert start == (lines + [last])[..|start|] == lines[..|start|];
    }
  }

  /** Once both lanes are read to their ends, only skipped lines are left. */
  lemma {:induction false} NothingLeft(log: seq<LogLine>, k: nat, token: string, needsMarker: bool)
    requires k <= |log| && OutLane(log[..k]) == OutLane(log) && ErrLane(log[..k]) == ErrLane(log)
    requires forall j :: 0 <= j < k ==> !Complete(ScanLog(log[..j], token, needsMarker))
    ensures ScanLog(log, token, needsMarker)
            == Merged(ReadOut(OutLane(log), token, needsMarker), ReadErr(ErrLane(log), token, needsMarker), needsMarker)
  {
    hide ReadLine, ReadOut, ReadErr;
    if k == |log| {
      assert log[..k] == log;
      ScanByLane(log, token, needsMarker);
    } else {
      var n := |log| - 1;
      assert log[..n][..k] == log[..k];
      LanesGrow(log[..n], k);
      assert OutLane(log[..n]) == OutLane(log) && ErrLane(log[..n]) == ErrLane(log) && log[n].Skipped? by {
        LastIsSkipped(log, k);
      }
      forall j | 0 <= j < k ensures !Complete(ScanLog(log[..n][..j], token, needsMarker)) {
        assert log[..n][..j] == log[..j];
      }
      NothingLeft(log[..n], k, token, needsMarker);
      SkippedLast(log, token, needsMarker);
    }
  }

  lemma {:induction false} SkippedLast(log: seq<LogLine>, token: string, needsMarker: bool)
    requires log != [] && log[|log| - 1].Skipped?
    ensures ScanLog(log, token, needsMarker) == ScanLog(log[..|log| - 1], token, needsMarker)
  {
    hide ParseSentinel, ParseErrMarker;
  }

  lemma {:induction false} LastIsSkipped(log: seq<LogLine>, k: nat)
    requires k < |log| && OutLane(log[..k]) == OutLane(log) && ErrLane(log[..k]) == ErrLane(log)
    ensures var n := |log| - 1; log[n].Skipped? && OutLane(log[..n]) == OutLane(log) && ErrLane(log[..n]) == ErrLane(log)
  {
    var n := |log| - 1;
    LanesGrow(log[..n], k);
    assert log[..n][..k] == log[..k];
  }

  /** Where a scan of the log is first complete, both lanes are read to their ends. */
  lemma {:induction false} CompleteAtEnds(log: seq<LogLine>, k: nat, token: string, out: seq<string>, sentinel: string,
                                          err: seq<string>, marker: string)
    requires Framed(log, out, sentinel, err, marker) && Plain(out, token) && Plain(err, token) && k <= |log|
    requires ParseErrMarker(sentinel, token).None? || ParseSentinel(sentinel, token).Some?
    requires forall j :: 0 <= j < k ==> !Complete(ScanLog(log[..j], token, true))
    requires Complete(ScanLog(log[..k], token, true))
    ensures OutLane(log[..k]) == OutLane(log) && ErrLane(log[..k]) == ErrLane(log)
  {
    hide ParseSentinel, ParseErrMarker, Contains;
    forall j | 0 <= j < k ensures !Complete(ScanLog(log[..k][..j], token, true)) {
      assert log[..k][..j] == log[..j];
    }
    ScanByLane(log[..k], token, true);
    LanesGrow(log, k);
    PlainStart(out, sentinel, OutLane(log[..k]), token);
    PlainStart(err, marker, ErrLane(log[..k]), token);
    if OutLane(log[..k]) != OutLane(log) {
      PlainOut(OutLane(log[..k]), token, true);
    } else if ErrLane(log[..k]) != ErrLane(log) {
      PlainErr(ErrLane(log[..k]), token, true);
      PlainOut(out, token, true);
    }
  }

  /** The first place a scan is complete, or the end of the log. */
  lemma {:induction false} FirstComplete(log: seq<LogLine>, n: nat, token: string) returns (k: nat)
    requires n <= |log|
    ensures k <= n && (k < n ==> Complete(ScanLog(log[..k], token, true)))
    ensures forall j :: 0 <= j < k ==> !Complete(ScanLog(log[..j], token, true))
  {
    if n == 0 {
      k := 0;
    } else {
      k := FirstComplete(log, n - 1, token);
      if k == n - 1 && !Complete(ScanLog(log[..k], token, true)) {
        k := n;
      }
    }
  }

  /**
   For every interleaving of a command's two lanes, with any other lines between them and the token nowhere else,
   the scan ends with the same stdout, stderr, exit code and directory, unterminated last lines included.
   */
  lemma {:induction false} InterleavingDoesNotMatter(
    log: seq<LogLine>, token: string, out: seq<string>, err: seq<string>,
    outRest: string, errRest: string, code: string, cwd: string)
    requires Framed(log, out, SentinelLine(outRest, token, code, cwd), err, MarkerLine(errRest, token))
    requires Plain(out, token) && Plain(err, token) && TokenOnce(outRest, token, code, cwd)
    requires ' ' !in code && ParseInt(code).Some?
    ensures ScanLog(log, token, true)
            == Scan(WithResidual(out, outRest), WithResidual(err, errRest), Some((ParseInt(code).value, cwd)), true)
  {
    hide ParseSentinel, ParseErrMarker, Contains, ParseInt, SentinelLine, MarkerLine, TokenOnce, ScanLog;
    var sentinel, marker := SentinelLine(outRest, token, code, cwd), MarkerLine(errRest, token);
    SentinelReads(outRest, token, code, cwd);
    MarkerReads(errRest, token);
    var k := FirstComplete(log, |log|, token);
    if k < |log| {
      CompleteAtEnds(log, k, token, out, sentinel, err, marker);
    } else {
      assert log[..k] == log;
    }
    NothingLeft(log, k, token, true);
    PlainOut(out, token, true);
    PlainErr(err, token, true);
    assert (out + [sentinel])[..|out|] == out && (err + [marker])[..|err|] == err;
  }

  /** So two runs that differ only in how the lanes interleave give the same answer. */
  lemma SameAnswer(
    log: seq<LogLine>, log': seq<LogLine>, token: string, out: seq<string>, err: seq<string>,
    outRest: string, errRest: string, code: string, cwd: string)
    requires Framed(log, out, SentinelLine(outRest, token, code, cwd), err, MarkerLine(errRest, token))
    requires Framed(log', out, SentinelLine(outRest, token, code, cwd), err, MarkerLine(errRest, token))
    requires Plain(out, token) && Plain(err, token) && TokenOnce(outRest, token, code, cwd)
    requires ' ' !in code && ParseInt(code).Some?
    ensures ResultOf(ScanLog(log, token, true)) == ResultOf(ScanLog(log', token, true)) != None
  {
    hide ScanLog, Framed, Plain, TokenOnce, SentinelLine, MarkerLine, ParseInt, Joined;
    InterleavingDoesNotMatter(log, token, out, err, outRest, errRest, code, cwd);
    InterleavingDoesNotMatter(log', token, out, err, outRest, errRest, code, cwd);
  }

  // ---------------------------------------------------------------- a terminal merges the lanes

  /** The token is nowhere in the marker line but at its end. */
  predicate TokenLast(residual: string, token: string) {
    var line := MarkerLine(residual, token);
    forall i :: 0 <= i <= |line| && OccursAt(line, token, i) ==> i + |token| == |line|
  }

  lemma {:induction false} MarkerIsNoSentinel(residual: string, token: string)
    requires TokenLast(residual, token)
    ensures ParseSentinel(MarkerLine(residual, token), token).None?
  {
    hide ParseInt;
    var line, needle := MarkerLine(residual, token), EXEC_MARKER + token + " ";
    var at := LastAt(line, needle, |line|);
    if at.Some? {
      PartOccurs(line, EXEC_MARKER, token, " ", at.value);
    }
  }

  lemma {:induction false} PlainAfter(lines: seq<string>, more: seq<string>, token: string, needsMarker: bool)
    requires Plain(more, token)
    ensures ReadOut(lines + more, token, needsMarker)
            == var s := ReadOut(lines, token, needsMarker); s.(stdout := s.stdout + more)
  {
    hide Contains, ParseSentinel, ParseErrMarker;
    if more == [] {
      assert lines + more == lines;
    } else {
      var n := |more| - 1;
      assert (lines + more)[..|lines + more| - 1] == lines + more[..n];
      PlainAfter(lines, more[..n], token, needsMarker);
      PlainLine(more[n], token);
      var stdout := ReadOut(lines, token, needsMarker).stdout;
      assert (stdout + more[..n]) + [more[n]] == stdout + more;
    }
  }

  /** What stdout gives with the end marker on it, up to the sentinel. */
  lemma {:induction false} MarkedOut(before: seq<string>, errRest: string, after: seq<string>, token: string)
    requires Plain(before, token) && Plain(after, token) && TokenLast(errRest, token)
    ensures ReadOut(before + [MarkerLine(errRest, token)] + after, token, true)
            == Scan(WithResidual(before, errRest) + after, [], None, true)
  {
    hide Contains, ParseSentinel, ParseErrMarker, MarkerLine;
    var marker := MarkerLine(errRest, token);
    PlainOut(before, token, true);
    assert (before + [marker])[..|before|] == before;
    MarkerReads(errRest, token);
    MarkerIsNoSentinel(errRest, token);
    PlainAfter(before + [marker], after, token, true);
  }

  /** With both streams on one terminal, everything is stdout, in the order written, without the frame's own lines. */
  lemma {:induction false} TerminalResult(
    log: seq<LogLine>, token: string, before: seq<string>, errRest: string, after: seq<string>,
    outRest: string, code: string, cwd: string)
    requires OutLane(log) == before + [MarkerLine(errRest, token)] + after + [SentinelLine(outRest, token, code, cwd)]
    requires ErrLane(log) == []
    requires Plain(before, token) && Plain(after, token) && TokenLast(errRest, token) && TokenOnce(outRest, token, code, cwd)
    requires ' ' !in code && ParseInt(code).Some?
    ensures ScanLog(log, token, true)
            == Scan(WithResidual(WithResidual(before, errRest) + after, outRest), [], Some((ParseInt(code).value, cwd)), true)
  {
    hide ParseSentinel, ParseErrMarker, Contains, ParseInt, SentinelLine, MarkerLine, TokenOnce, ScanLog;
    var marker, sentinel := MarkerLine(errRest, token), SentinelLine(outRest, token, code, cwd);
    var start := before + [marker] + after;
    SentinelReads(outRest, token, code, cwd);
    MarkedOut(before, errRest, after, token);
    var k := FirstComplete(log, |log|, token);
    LanesGrow(log, k);
    if k < |log| {
      forall j | 0 <= j < k ensures !Complete(ScanLog(log[..k][..j], token, true)) {
        assert log[..k][..j] == log[..j];
      }
      ScanByLane(log[..k], token, true);
      if OutLane(log[..k]) != OutLane(log) {
        NoSentinelYet(before, errRest, after, OutLane(log[..k]), sentinel, token);
      }
    } else {
      assert log[..k] == log;
    }
    NothingLeft(log, k, token, true);
    assert (start + [sentinel])[..|start|] == start;
  }

  lemma {:induction false} NoSentinelYet(before: seq<string>, errRest: string, after: seq<string>, start: seq<string>,
                                         sentinel: string, token: string)
    requires Plain(before, token) && Plain(after, token) && TokenLast(errRest, token)
    requires start <= before + [MarkerLine(errRest, token)] + after + [sentinel]
    requires start != before + [MarkerLine(errRest, token)] + after + [sentinel]
    ensures ReadOut(start, token, true).sentinel.None?
  {
    hide Contains, ReadOut, MarkerLine;
    var marker := MarkerLine(errRest, token);
    var all := before + [marker] + after + [sentinel];
    assert start == all[..|start|];
    if |start| <= |before| {
      assert start == before[..|start|];
      PlainOut(start, token, true);
    } else {
      var n := |start| - |before| - 1;
      assert start == before + [marker] + after[..n];
      MarkedOut(before, errRest, after[..n], token);
    }
  }
}
