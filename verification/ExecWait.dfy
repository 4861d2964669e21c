/** Waiting for the result of one framed command: reading its log while the deadline and the grace period run. */
module ExecWait {
  import opened Wrappers
  import opened ExecMerge

  /** What one read of the log gives. At its end the wait looks whether the grace period is over and the session runs. */
  datatype Read = Line(line: LogLine) | AtEnd(graceOver: bool, running: bool)

  /** One turn of the loop: whether the deadline has passed, then the read. */
  datatype Turn = Turn(expired: bool, read: Read)

  datatype WaitEnd =
    | Finished(result: ExecResult)
    | TimedOut(stdout: string, stderr: string)
    | SessionExited
    | StillWaiting

  function Final(s: Scan): ExecResult
    requires s.sentinel.Some?
  {
    ExecResult(Joined(s.stdout), Joined(s.stderr), s.sentinel.value.0, s.sentinel.value.1)
  }

  /** One turn, with what it read. Once the sentinel is read only the end marker or the grace period ends the wait. */
  function Turned(s: Scan, t: Turn, token: string, needsMarker: bool): (Scan, WaitEnd) {
    if Complete(s) then (s, Finished(Final(s)))
    else if s.sentinel.None? && t.expired then (s, TimedOut(Joined(s.stdout), Joined(s.stderr)))
    else
      match t.read
      case Line(line) => (ReadLine(s, line, token, needsMarker), StillWaiting)
      case AtEnd(graceOver, running) =>
        if s.sentinel.Some? then (s, if graceOver then Finished(Final(s)) else StillWaiting)
        else (s, if running then StillWaiting else SessionExited)
  }

  function Waited(turns: seq<Turn>, token: string, needsMarker: bool): (Scan, WaitEnd) {
    if turns == [] then (Fresh(needsMarker), StillWaiting)
    else
      var n := |turns| - 1;
      var (s, end) := Waited(turns[..n], token, needsMarker);
      if end.StillWaiting? then Turned(s, turns[n], token, needsMarker) else (s, end)
  }

  /** The whole wait; before the log exists only the deadline ends it. */
  function WholeWait(missing: seq<bool>, turns: seq<Turn>, token: string, needsMarker: bool): WaitEnd {
    if true in missing then TimedOut("", "") else Waited(turns, token, needsMarker).1
  }

  /** `missing` are the looks at the deadline while there is no log yet, `turns` the reads once there is. */
  method WaitSentinelResult(missing: seq<bool>, turns: seq<Turn>, token: string, needsMarker: bool) returns (end: WaitEnd)
    ensures end == WholeWait(missing, turns, token, needsMarker)
  {
    hide ParseSentinel, ParseErrMarker, Joined;
    var j := 0;
    while j < |missing|
      invariant j <= |missing| && true !in missing[..j]
    {
      if missing[j] {
        return TimedOut("", "");
      }
      j := j + 1;
    }
    assert missing[..j] == missing;
    var stdoutLines: seq<string>, stderrLines: seq<string> := [], [];
    var sentinel: Option<(int, string)> := None;
    var errMarked := !needsMarker;
    var i := 0;
    while i < |turns|
      invariant i <= |turns|
      invariant Waited(turns[..i], token, needsMarker) == (Scan(stdoutLines, stderrLines, sentinel, errMarked), StillWaiting)
    {
      assert turns[..i + 1][..i] == turns[..i];
      StaysEnded(turns, i + 1, token, needsMarker);
      if sentinel.Some? {
        if errMarked {
          return Finished(ExecResult(Joined(stdoutLines), Joined(stderrLines), sentinel.value.0, sentinel.value.1));
        }
      } else if turns[i].expired {
        return TimedOut(Joined(stdoutLines), Joined(stderrLines));
      }
      match turns[i].read {
        case AtEnd(graceOver, running) =>
          if sentinel.Some? {
            if graceOver {
              return Finished(ExecResult(Joined(stdoutLines), Joined(stderrLines), sentinel.value.0, sentinel.value.1));
            }
          } else if !running {
            return SessionExited;
          }
        case Line(Skipped) =>
        case Line(Out(content)) =>
          var found := ParseSentinel(content, token);
          var marker := if needsMarker then ParseErrMarker(content, token) else None;
          if found.Some? {
            stdoutLines := WithResidual(stdoutLines, found.value.residual);
            if sentinel.None? {
              sentinel := Some((found.value.code, found.value.cwd));
            }
          } else if marker.Some? {
            stdoutLines := WithResidual(stdoutLines, marker.value);
            errMarked := true;
          } else {
            stdoutLines := stdoutLines + [content];
          }
        case Line(Err(content)) =>
          var marker := if needsMarker then ParseErrMarker(content, token) else None;
          if marker.Some? {
            stderrLines := WithResidual(stderrLines, marker.value);
            errMarked := true;
          } else {
            stderrLines := stderrLines + [content];
          }
      }
      i := i + 1;
    }
    assert turns[..i] == turns;
    end := StillWaiting;
  }

  lemma {:induction false} StaysEnded(turns: seq<Turn>, k: nat, token: string, needsMarker: bool)
    requires k <= |turns|
    ensures !Waited(turns[..k], token, needsMarker).1.StillWaiting? ==>
              Waited(turns, token, needsMarker) == Waited(turns[..k], token, needsMarker)
  {
    hide Turned;
    if k == |turns| {
      assert turns[..k] == turns;
    } else {
      var n := |turns| - 1;
      assert turns[..n][..k] == turns[..k];
      StaysEnded(turns[..n], k, token, needsMarker);
    }
  }

  // ---------------------------------------------------------------- what was read

  /** The lines read before the wait ended. */
  function LinesRead(turns: seq<Turn>, token: string, needsMarker: bool): seq<LogLine> {
    if turns == [] then []
    else
      var n := |turns| - 1;
      var (s, end) := Waited(turns[..n], token, needsMarker);
      var before := LinesRead(turns[..n], token, needsMarker);
      if end.StillWaiting? && !Complete(s) && !(s.sentinel.None? && turns[n].expired) && turns[n].read.Line?
      then before + [turns[n].read.line] else before
  }

  /** What the wait knows is the scan of what it read, none of it read once the result was complete. */
  lemma {:induction false} KnowsTheScan(turns: seq<Turn>, token: string, needsMarker: bool)
    ensures var read := LinesRead(turns, token, needsMarker);
      && Waited(turns, token, needsMarker).0 == ScanLog(read, token, needsMarker)
      && forall k :: 0 <= k < |read| ==> !Complete(ScanLog(read[..k], token, needsMarker))
  {
    hide ReadLine, Complete, ScanLog;
    if turns == [] {
      NothingRead(token, needsMarker);
    } else {
      var n := |turns| - 1;
      KnowsTheScan(turns[..n], token, needsMarker);
      var before := LinesRead(turns[..n], token, needsMarker);
      if LinesRead(turns, token, needsMarker) != before {
        assert before[..|before|] == before;
        OneMoreRead(before, turns[n].read.line, token, needsMarker);
      }
    }
  }

  lemma NothingRead(token: string, needsMarker: bool)
    ensures ScanLog([], token, needsMarker) == Fresh(needsMarker)
  {
  }

  lemma {:induction false} OneMoreRead(before: seq<LogLine>, line: LogLine, token: string, needsMarker: bool)
    requires forall k :: 0 <= k <= |before| ==> !Complete(ScanLog(before[..k], token, needsMarker))
    ensures var read := before + [line];
      && ScanLog(read, token, needsMarker) == ReadLine(ScanLog(before, token, needsMarker), line, token, needsMarker)
      && forall k :: 0 <= k < |read| ==> !Complete(ScanLog(read[..k], token, needsMarker))
  {
    hide ReadLine, Complete;
    var read := before + [line];
    assert before[..|before|] == before && read[..|before|] == before;
    forall k | 0 <= k < |read| ensures !Complete(ScanLog(read[..k], token, needsMarker)) {
      assert read[..k] == before[..k];
    }
  }

  // ---------------------------------------------------------------- what the answers mean

  /** A wait ends with what it knows then. */
  lemma {:induction false} EndOfWait(turns: seq<Turn>, token: string, needsMarker: bool)
    ensures var (s, end) := Waited(turns, token, needsMarker);
      match end
      case Finished(r) => s.sentinel.Some? && r == Final(s)
      case TimedOut(stdout, stderr) => s.sentinel.None? && stdout == Joined(s.stdout) && stderr == Joined(s.stderr)
      case SessionExited => s.sentinel.None?
      case StillWaiting => true
  {
    hide ReadLine, Joined;
    if turns != [] {
      EndOfWait(turns[..|turns| - 1], token, needsMarker);
    }
  }

  /** What the start of the stdout lane gives: itself, or with its last line everything. */
  lemma {:induction false} OutSoFar(start: seq<string>, out: seq<string>, last: string, sentinel: Sentinel, token: string)
    requires Plain(out, token) && start <= out + [last] && ParseSentinel(last, token) == Some(sentinel)
    ensures ReadOut(start, token, true)
            == if start == out + [last]
               then Scan(WithResidual(out, sentinel.residual), [], Some((sentinel.code, sentinel.cwd)), false)
               else Scan(start, [], None, false)
    ensures start == out + [last] || start <= out
  {
    hide ParseSentinel, ParseErrMarker, Contains;
    PlainStart(out, last, start, token);
    PlainOut(out, token, true);
    if start == out + [last] {
      assert (out + [last])[..|out|] == out;
    } else {
      PlainOut(start, token, true);
    }
  }

  lemma {:induction false} ErrSoFar(start: seq<string>, err: seq<string>, last: string, residual: string, token: string)
    requires Plain(err, token) && start <= err + [last] && ParseErrMarker(last, token) == Some(residual)
    ensures ReadErr(start, token, true)
            == if start == err + [last] then Scan([], WithResidual(err, residual), None, true) else Scan([], start, None, false)
    ensures start == err + [last] || start <= err
  {
    hide ParseSentinel, ParseErrMarker, Contains;
    PlainStart(err, last, start, token);
    PlainErr(err, token, true);
    if start == err + [last] {
      assert (err + [last])[..|err|] == err;
    } else {
      PlainErr(start, token, true);
    }
  }

  lemma StartIsStart(start: seq<string>, lines: seq<string>)
    ensures start <= lines ==> StartOf(Joined(start), lines)
  {
    hide Joined;
    if start <= lines {
      assert start == lines[..|start|];
    }
  }

  predicate StartOf(text: string, lines: seq<string>) {
    exists k :: 0 <= k <= |lines| && text == Joined(lines[..k])
  }

  /**
   Whenever a framed command's wait ends, however its lanes interleave and whichever limit ends it: a result has
   the exact stdout, code and directory, with the exact stderr once the end marker was read and the start of it when
   the grace period ran out before; a wait that timed out or lost its session never read the sentinel.
   */
  lemma {:induction false} WaitAnswers(
    turns: seq<Turn>, log: seq<LogLine>, token: string, out: seq<string>, err: seq<string>,
    outRest: string, errRest: string, code: string, cwd: string)
    requires Framed(log, out, SentinelLine(outRest, token, code, cwd), err, MarkerLine(errRest, token))
    requires Plain(out, token) && Plain(err, token) && TokenOnce(outRest, token, code, cwd)
    requires ' ' !in code && ParseInt(code).Some?
    requires LinesRead(turns, token, true) <= log
    ensures var (s, end) := Waited(turns, token, true);
      match end
      case Finished(r) =>
        && r.stdout == Joined(WithResidual(out, outRest)) && r.exitCode == ParseInt(code).value && r.cwdAfter == cwd
        && if s.marked then r.stderr == Joined(WithResidual(err, errRest)) else StartOf(r.stderr, err)
      case TimedOut(stdout, stderr) =>
        && s.sentinel.None? && StartOf(stdout, out)
        && if s.marked then stderr == Joined(WithResidual(err, errRest)) else StartOf(stderr, err)
      case SessionExited => s.sentinel.None?
      case StillWaiting => true
  {
    hide ParseSentinel, ParseErrMarker, Contains, ParseInt, SentinelLine, MarkerLine, TokenOnce, ScanLog, LinesRead, Waited;
    var read := LinesRead(turns, token, true);
    var sentinel, marker := SentinelLine(outRest, token, code, cwd), MarkerLine(errRest, token);
    KnowsTheScan(turns, token, true);
    ScanByLane(read, token, true);
    assert read == log[..|read|];
    LanesGrow(log, |read|);
    SentinelReads(outRest, token, code, cwd);
    MarkerReads(errRest, token);
    OutSoFar(OutLane(read), out, sentinel, Sentinel(outRest, ParseInt(code).value, cwd), token);
    ErrSoFar(ErrLane(read), err, marker, errRest, token);
    EndOfWait(turns, token, true);
    StartIsStart(OutLane(read), out);
    StartIsStart(ErrLane(read), err);
  }

  // ---------------------------------------------------------------- a wait no limit ends

  predicate Patient(t: Turn) {
    !t.expired && (t.read.AtEnd? ==> !t.read.graceOver && t.read.running)
  }

  /** All the lines of a wait's turns, read or not. */
  function Lines(turns: seq<Turn>): seq<LogLine> {
    if turns == [] then []
    else
      var last := turns[|turns| - 1];
      Lines(turns[..|turns| - 1]) + if last.read.Line? then [last.read.line] else []
  }

  /** With no limit reached, the wait knows the scan of all its lines, and ends only when that is complete. */
  lemma {:induction false} PatientKnows(turns: seq<Turn>, token: string, needsMarker: bool)
    requires forall i :: 0 <= i < |turns| ==> Patient(turns[i])
    ensures var (s, end) := Waited(turns, token, needsMarker);
      && s == ScanLog(Lines(turns), token, needsMarker)
      && (end == StillWaiting || (Complete(s) && end == Finished(Final(s))))
  {
    hide ReadLine, Joined;
    if turns != [] {
      var n := |turns| - 1;
      PatientKnows(turns[..n], token, needsMarker);
      var before := Lines(turns[..n]);
      if turns[n].read.Line? {
        assert (before + [turns[n].read.line])[..|before|] == before;
      } else {
        assert before + [] == before;
      }
    }
  }

  /**
   A framed command whose lines are all logged is answered with its exact output, code and directory by the next
   turn after them at the latest, however the two lanes interleave, as long as no limit is reached before.
   */
  lemma {:induction false} PatientWaitAnswers(
    turns: seq<Turn>, next: Turn, token: string, out: seq<string>, err: seq<string>,
    outRest: string, errRest: string, code: string, cwd: string)
    requires Framed(Lines(turns), out, SentinelLine(outRest, token, code, cwd), err, MarkerLine(errRest, token))
    requires Plain(out, token) && Plain(err, token) && TokenOnce(outRest, token, code, cwd)
    requires ' ' !in code && ParseInt(code).Some?
    requires forall i :: 0 <= i < |turns| ==> Patient(turns[i])
    ensures Waited(turns + [next], token, true).1
            == Finished(ExecResult(Joined(WithResidual(out, outRest)), Joined(WithResidual(err, errRest)),
                                   ParseInt(code).value, cwd))
  {
    hide ReadLine, Joined, ScanLog, Framed, Plain, TokenOnce, SentinelLine, MarkerLine, ParseInt, Lines;
    PatientKnows(turns, token, true);
    InterleavingDoesNotMatter(Lines(turns), token, out, err, outRest, errRest, code, cwd);
    assert (turns + [next])[..|turns|] == turns;
  }
}
