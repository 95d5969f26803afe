/** `wait` and `run --follow` beside a running launcher, one file operation at a time
    (launcher/cli.py:248-325, 389-431). The launcher performs a fixed list of operations on the
    evidence directory; between any two of them the waiter may take any number of its own steps. */
module Waiter {
  import opened Text
  import opened Verdicts
  import opened EvidenceDir

  /** What a wait prints, or what `launch_background` returns without waiting: its child exited and left
      nothing, or wrote no marker in time. */
  datatype Answer = Done(verdict: Option<Summary>) | Dead | Missing | StillRunning | ChildDied | Stalled

  /** The next operation of `launch_background` (the first three) or of `cmd_wait`. */
  datatype Pc =
    | AwaitMarker | PollChild | FindSummary
    | LookMarker | OpenMarker | ReadMarker | AskPid(own: bool) | Sleep | LookSummary | ReadSummary
    | Answered(answer: Answer)

  /** The launcher has performed its first `n` operations. */
  datatype Sys = Sys(n: nat, pc: Pc)

  /** The run as the waiter meets it: the directory before the run, the operations in order, and whether
      it writes its own process id into the marker or keeps the one it finds there, as the in-process
      path does. */
  datatype Run = Run(before: Dir, ops: seq<FileOp>, ownPid: bool)

  function At(run: Run, n: nat): Dir
    requires n <= |run.ops|
  {
    Replay(run.before, run.ops[..n])
  }

  function Final(run: Run): Dir {
    Replay(run.before, run.ops)
  }

  /** Truncated JSON never parses; `done` is then reported with an error and no verdict. */
  function Parsed(f: SummaryFile): Option<Summary> {
    if f.WholeSummary? then Some(f.summary) else None
  }

  /** The marker's text names the launcher: it writes its own id, and has written it. */
  predicate NamesLauncher(run: Run, n: nat) {
    run.ownPid && n >= 2
  }

  /** One step of the waiter over the directory `d`; `over` when the launcher has no operation left, `own`
      when the marker's text names it. A launcher seen dead has performed all its operations; any other
      process may be dead at any time. */
  ghost predicate WaiterStep(d: Dir, over: bool, own: bool, pc: Pc, next: Pc) {
    match pc
    case AwaitMarker => next == if d.marker == NoMarker then PollChild else LookMarker
    case PollChild => next == AwaitMarker || next == Answered(Stalled) || (over && next == FindSummary)
    case FindSummary => next == if d.summary == NoSummary then Answered(ChildDied) else LookMarker
    case LookMarker => next == if d.marker == NoMarker then LookSummary else OpenMarker
    case OpenMarker => next == if d.marker == NoMarker then Answered(Dead) else ReadMarker
    case ReadMarker =>
      || (d.marker != FullMarker && next == Answered(Dead))
      || (d.marker != EmptyMarker && next.AskPid? && (d.marker == FullMarker ==> next.own == own))
    case AskPid(launcher) => next == Sleep || ((over || !launcher) && next == Answered(Dead))
    case Sleep => next == LookMarker || next == Answered(StillRunning)
    case LookSummary => next == if d.summary == NoSummary then Answered(Missing) else ReadSummary
    case ReadSummary => next == Answered(Done(Parsed(d.summary)))
    case Answered(_) => false
  }

  /** Either side takes one step. */
  ghost predicate Next(run: Run, s: Sys, t: Sys) {
    && s.n <= |run.ops|
    && ((s.n < |run.ops| && t == s.(n := s.n + 1))
        || (t.n == s.n && WaiterStep(At(run, s.n), s.n == |run.ops|, NamesLauncher(run, s.n), s.pc, t.pc)))
  }

  ghost predicate Trace(run: Run, trace: seq<Sys>) {
    && trace != [] && trace[0].n <= |run.ops|
    && forall i | 0 <= i < |trace| - 1 :: Next(run, trace[i], trace[i + 1])
  }

  // ---------------------------------------------------------------- the marker protocol

  /** A marker once in place stays until the run's last operation. */
  ghost predicate Guarded(run: Run) {
    forall k, m | 0 <= k <= m < |run.ops| && At(run, k).marker != NoMarker :: At(run, m).marker != NoMarker
  }

  lemma AtStep(run: Run, n: nat)
    requires n < |run.ops|
    ensures At(run, n + 1) == Step(At(run, n), run.ops[n])
  {
    assert run.ops[..n + 1] == run.ops[..n] + [run.ops[n]];
    ReplaySnoc(run.before, run.ops[..n], run.ops[n]);
  }

  function MarkerOf(run: Run, closed: bool, n: nat): MarkerFile {
    if n == 0 then run.before.marker
    else if n == 1 then EmptyMarker
    else if closed && n == |run.ops| then NoMarker else FullMarker
  }

  /** The marker through a run that writes it, writes summaries and may remove it at the end. */
  lemma {:induction false} MarkerAt(run: Run, body: seq<FileOp>, closed: bool, n: nat)
    requires Writes(body) && run.ops == OPENING + body + if closed then [RemoveMarker] else []
    requires n <= |run.ops|
    ensures At(run, n).marker == MarkerOf(run, closed, n)
  {
    assert run.ops[..0] == [];
    if n > 0 {
      AtStep(run, n - 1);
      MarkerAt(run, body, closed, n - 1);
      if n <= 2 {
        assert run.ops[n - 1] == OPENING[n - 1];
      } else if n <= |body| + 2 {
        assert run.ops[n - 1] == body[n - 3] && body[n - 3] in body;
        assert SummaryOp(run.ops[n - 1]);
      } else {
        assert run.ops[n - 1] == RemoveMarker;
        assert closed && n == |run.ops|;
      }
    }
  }

  lemma SupervisedIsGuarded(run: Run)
    requires Finished(run.ops) || Unfinished(run.ops)
    ensures Guarded(run)
    ensures Unfinished(run.ops) ==> Final(run).marker == FullMarker
  {
    var closed := !Unfinished(run.ops);
    var body :| Writes(body) && run.ops == OPENING + body + if closed then [RemoveMarker] else [];
    forall n | 0 <= n <= |run.ops|
      ensures At(run, n).marker == MarkerOf(run, closed, n)
    {
      MarkerAt(run, body, closed, n);
    }
    assert run.ops[..|run.ops|] == run.ops && At(run, |run.ops|) == Final(run);
  }

  // ---------------------------------------------------------------- what a waiter may report

  /** The marker has been seen, or the process has been seen gone. */
  ghost predicate Sees(run: Run, n: nat)
    requires n <= |run.ops|
  {
    n == |run.ops| || At(run, n).marker != NoMarker
  }

  /** `done`, `missing` and the child's death are answered only after the launcher's last file operation,
      and then with the verdict the finished run left, and with none left. */
  ghost predicate AnswerMeans(run: Run, n: nat, a: Answer) {
    match a
    case Done(verdict) =>
      && n == |run.ops| && Final(run).marker == NoMarker && Final(run).summary != NoSummary
      && verdict == Parsed(Final(run).summary)
    case Missing => n == |run.ops| && Final(run).marker == NoMarker && Final(run).summary == NoSummary
    case ChildDied => n == |run.ops| && Final(run).summary == NoSummary
    case _ => true
  }

  ghost predicate Inv(run: Run, s: Sys) {
    && s.n <= |run.ops|
    && (s.pc.AwaitMarker? || s.pc.PollChild? || s.pc == Answered(Stalled) || Sees(run, s.n))
    && (s.pc.FindSummary? || s.pc.LookSummary? || s.pc.ReadSummary? ==> s.n == |run.ops|)
    && (s.pc.LookSummary? || s.pc.ReadSummary? ==> Final(run).marker == NoMarker)
    && (s.pc.ReadSummary? ==> Final(run).summary != NoSummary)
    && (s.pc.Answered? ==> AnswerMeans(run, s.n, s.pc.answer))
  }

  lemma InvStep(run: Run, s: Sys, t: Sys)
    requires Guarded(run) && Inv(run, s) && Next(run, s, t)
    ensures Inv(run, t)
  {
    assert run.ops[..|run.ops|] == run.ops;
    if t.n == s.n + 1 && t.n < |run.ops| {
      assert At(run, s.n).marker != NoMarker ==> At(run, t.n).marker != NoMarker;
    }
  }

  lemma {:induction false} InvHolds(run: Run, trace: seq<Sys>)
    requires Guarded(run) && Trace(run, trace) && Inv(run, trace[0])
    ensures Inv(run, trace[|trace| - 1])
    decreases |trace|
  {
    if |trace| > 1 {
      var shorter := trace[..|trace| - 1];
      assert forall i | 0 <= i < |shorter| - 1 :: Next(run, shorter[i], shorter[i + 1]);
      InvHolds(run, shorter);
      InvStep(run, shorter[|shorter| - 1], trace[|trace| - 1]);
    }
  }

  /** A wait begins in `launch_background`, at any time, or by itself once the marker is there. */
  ghost predicate Begins(run: Run, s: Sys) {
    s.n <= |run.ops| && (s.pc == AwaitMarker || (s.pc == LookMarker && Sees(run, s.n)))
  }

  /** Every wait beside every supervised run. */
  lemma WaiterSafety(run: Run, trace: seq<Sys>)
    requires Finished(run.ops) || Unfinished(run.ops)
    requires Trace(run, trace) && Begins(run, trace[0])
    ensures var s := trace[|trace| - 1]; s.pc.Answered? ==> AnswerMeans(run, s.n, s.pc.answer)
    ensures var pc := trace[|trace| - 1].pc;
            Unfinished(run.ops) && pc.Answered? ==> !pc.answer.Done? && pc.answer != Missing
  {
    SupervisedIsGuarded(run);
    InvHolds(run, trace);
  }

  /** A launch can report that its child stalled at any moment without a marker, whatever summary stands
      there, also after the child has finished with one. */
  lemma StallsAnytime(run: Run, n: nat)
    requires n <= |run.ops| && At(run, n).marker == NoMarker
    ensures var trace := [Sys(n, AwaitMarker), Sys(n, PollChild), Sys(n, Answered(Stalled))];
            Trace(run, trace) && Begins(run, trace[0])
  {
  }

  /** A wait beside the run that answers `done` with this verdict. */
  ghost predicate Reads(run: Run, trace: seq<Sys>, verdict: Option<Summary>) {
    Trace(run, trace) && Begins(run, trace[0]) && trace[|trace| - 1].pc == Answered(Done(verdict))
  }

  /** After the last operation of a run that leaves no marker, a wait reads the summary that stands,
      whoever wrote it. */
  lemma FinalRead(run: Run) returns (trace: seq<Sys>)
    requires Final(run).marker == NoMarker && Final(run).summary != NoSummary
    ensures Reads(run, trace, Parsed(Final(run).summary))
  {
    var n := |run.ops|;
    assert run.ops[..n] == run.ops;
    trace := [Sys(n, LookMarker), Sys(n, LookSummary), Sys(n, ReadSummary),
              Sys(n, Answered(Done(Parsed(Final(run).summary))))];
  }

  /** What can be read beside a supervised run at all: what stands after its last operation. */
  lemma ReadsExactly(run: Run, verdict: Option<Summary>)
    requires Finished(run.ops) || Unfinished(run.ops)
    ensures (exists trace :: Reads(run, trace, verdict)) <==>
            Final(run).marker == NoMarker && Final(run).summary != NoSummary && verdict == Parsed(Final(run).summary)
  {
    forall trace | Reads(run, trace, verdict)
      ensures Final(run).marker == NoMarker && Final(run).summary != NoSummary && verdict == Parsed(Final(run).summary)
    {
      WaiterSafety(run, trace);
    }
    if Final(run).marker == NoMarker && Final(run).summary != NoSummary {
      var trace := FinalRead(run);
    }
  }

  // ---------------------------------------------------------------- a launch refused before its marker

  /** An early abort writes at most one summary and only where none is, so a verdict read at any
      moment is the one that stays, also while a dead marker of an earlier run is being removed. */
  lemma {:induction false} RefusalSafety(run: Run, alive: bool, refusal: Summary, trace: seq<Sys>)
    requires run.ops == AbortOps(run.before, alive, refusal)
    requires Trace(run, trace) && Begins(run, trace[0])
    ensures var pc := trace[|trace| - 1].pc;
            pc.Answered? && pc.answer.Done? && pc.answer.verdict.Some? ==>
              pc.answer.verdict == Parsed(Final(run).summary)
    decreases |trace|
  {
    hide AbortOps, Replay;
    if |trace| > 1 {
      var s, t := trace[|trace| - 2], trace[|trace| - 1];
      var shorter := trace[..|trace| - 1];
      assert forall i | 0 <= i < |shorter| - 1 :: Next(run, shorter[i], shorter[i + 1]);
      RefusalSafety(run, alive, refusal, shorter);
      assert Next(run, s, t);
      SummaryAt(run, alive, refusal, s.n);
      SummaryAt(run, alive, refusal, |run.ops|);
      assert run.ops[..|run.ops|] == run.ops;
    }
  }

  lemma {:induction false} SummaryAt(run: Run, alive: bool, refusal: Summary, n: nat)
    requires run.ops == AbortOps(run.before, alive, refusal) && n <= |run.ops|
    ensures At(run, n).summary ==
              if run.before.summary != NoSummary then run.before.summary
              else if n == |run.ops| then WholeSummary(refusal)
              else if n == |run.ops| - 1 then PartialSummary else NoSummary
  {
    if n > 0 {
      AtStep(run, n - 1);
      SummaryAt(run, alive, refusal, n - 1);
    }
  }

  /** Beside a launch refused because of a live process's marker, nothing is read at all. */
  lemma {:induction false} HeldMarker(run: Run, alive: bool, refusal: Summary, trace: seq<Sys>)
    requires run.ops == AbortOps(run.before, alive, refusal) && run.before.marker == FullMarker && alive
    requires Trace(run, trace) && Begins(run, trace[0])
    ensures var pc := trace[|trace| - 1].pc;
            !pc.LookSummary? && !pc.ReadSummary? && (pc.Answered? ==> !pc.answer.Done? && !pc.answer.Missing?)
    decreases |trace|
  {
    hide AbortOps, Replay;
    if |trace| > 1 {
      var s, t := trace[|trace| - 2], trace[|trace| - 1];
      var shorter := trace[..|trace| - 1];
      assert forall i | 0 <= i < |shorter| - 1 :: Next(run, shorter[i], shorter[i + 1]);
      HeldMarker(run, alive, refusal, shorter);
      assert Next(run, s, t);
      HeldAt(run, alive, refusal, s.n);
    }
  }

  lemma {:induction false} HeldAt(run: Run, alive: bool, refusal: Summary, n: nat)
    requires run.ops == AbortOps(run.before, alive, refusal) && n <= |run.ops|
    requires run.before.marker == FullMarker && alive
    ensures At(run, n).marker == FullMarker
  {
    if n > 0 {
      AtStep(run, n - 1);
      HeldAt(run, alive, refusal, n - 1);
    }
  }

  // ---------------------------------------------------------------- `dead`

  /** The waiter saw the run's own marker with its text in it. */
  ghost predicate SawText(run: Run, s: Sys) {
    && s.n <= |run.ops| && s.n >= 2 && !s.pc.AwaitMarker? && !s.pc.PollChild?
    && (s.pc == Answered(Dead) || s.pc == AskPid(false) ==> s.n == |run.ops|)
  }

  /** A wait that begins once the launcher's own id stands in the marker answers `dead` only after the
      launcher's last operation. */
  lemma {:induction false} DeadIsOver(run: Run, trace: seq<Sys>)
    requires (Finished(run.ops) || Unfinished(run.ops)) && run.ownPid && Trace(run, trace)
    requires trace[0].pc == LookMarker && trace[0].n >= 2
    ensures SawText(run, trace[|trace| - 1])
    decreases |trace|
  {
    if |trace| > 1 {
      var s, t := trace[|trace| - 2], trace[|trace| - 1];
      var shorter := trace[..|trace| - 1];
      assert forall i | 0 <= i < |shorter| - 1 :: Next(run, shorter[i], shorter[i + 1]);
      DeadIsOver(run, shorter);
      assert Next(run, s, t);
      TextStays(run, s.n);
    }
  }

  lemma TextStays(run: Run, n: nat)
    requires (Finished(run.ops) || Unfinished(run.ops)) && 2 <= n <= |run.ops|
    ensures At(run, n).marker == FullMarker || n == |run.ops|
  {
    var closed := !Unfinished(run.ops);
    var body :| Writes(body) && run.ops == OPENING + body + if closed then [RemoveMarker] else [];
    MarkerAt(run, body, closed, n);
  }

  /** A wait that begins at operation `n` and reports a run dead that has operations to come. */
  ghost predicate FalseDead(run: Run, n: nat, trace: seq<Sys>) {
    && Trace(run, trace) && trace[0] == Sys(n, LookMarker)
    && trace[|trace| - 1].pc == Answered(Dead) && trace[|trace| - 1].n < |run.ops|
  }

  /** The marker opened and not yet written reads as dead. */
  lemma EmptyMarkerReadsDead(run: Run, n: nat)
    requires n < |run.ops| && At(run, n).marker == EmptyMarker
    ensures FalseDead(run, n, [Sys(n, LookMarker), Sys(n, OpenMarker), Sys(n, ReadMarker), Sys(n, Answered(Dead))])
  {
  }

  /** So does a marker whose text names another process, when that process is gone. */
  lemma ForeignPidReadsDead(run: Run, n: nat)
    requires n < |run.ops| && At(run, n).marker == FullMarker && !NamesLauncher(run, n)
    ensures FalseDead(run, n, [Sys(n, LookMarker), Sys(n, OpenMarker), Sys(n, ReadMarker), Sys(n, AskPid(false)),
                               Sys(n, Answered(Dead))])
  {
  }

  /** A wait that finds a marker can report a run in progress dead exactly when the marker does not yet,
      or does not at all, carry the launcher's own process id. */
  lemma DeadExactly(run: Run, n: nat)
    requires (Finished(run.ops) || Unfinished(run.ops)) && n < |run.ops| && At(run, n).marker != NoMarker
    ensures (exists trace :: FalseDead(run, n, trace)) <==> !NamesLauncher(run, n)
  {
    if NamesLauncher(run, n) {
      forall trace | Trace(run, trace) && trace[0] == Sys(n, LookMarker)
        ensures !FalseDead(run, n, trace)
      {
        DeadIsOver(run, trace);
      }
    } else if At(run, n).marker == EmptyMarker {
      EmptyMarkerReadsDead(run, n);
    } else {
      ForeignPidReadsDead(run, n);
    }
  }

  // ---------------------------------------------------------------- the in-process path

  /** `_open_run_state`, then `_run_session` or `_fail_early`: one summary, then the marker goes. */
  method RunInProcess(e: Evidence, verdict: Summary)
    requires e.ops == []
    modifies e
    ensures Finished(e.ops) && e.State().summary == WholeSummary(verdict)
  {
    e.PutMarker();
    e.PutSummary(verdict);
    PutsLast(e.before, OPENING, verdict);
    ReplaySnoc(e.before, e.ops, RemoveMarker);
    e.DropMarker();
    assert Writes(Puts(verdict)) && e.ops == OPENING + Puts(verdict) + [RemoveMarker];
  }
}
