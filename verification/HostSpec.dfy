/** One supervised run on the host as a function of the answers it gets and of what others do
    (launcher/k8s.py:121-213, 277-348, 401-944; launcher/abort.py:44-86). */
module HostSpec {
  import opened Text
  import opened FileTree
  import opened Verdicts
  import opened EvidenceDir
  import opened World
  import Utf8
  import PatchGate
  import Contract
  import TicketHeader
  import TicketGate

  /** What one extracted payload carries; the internal exit code is None when absent or no integer. */
  datatype Delivery = Delivery(summary: Option<Summary>, internalRc: Option<int>, patch: Bytes)

  /** The answers about the fresh Job: a call that times out, completion, an infrastructure cause named
      for its Pod or for itself, its Pod's exit code, and a log that reads as an execution error. */
  datatype FreshAnswers = FreshAnswers(raises: bool, completed: bool, podCause: bool, jobCause: bool, exitRc: int,
                                       errorTail: bool)

  /** Every answer the outside gives the run, apart from the state of the world. `watchRaises` and
      `causeRaises` are kubectl calls that time out while the worker is watched and classified. */
  datatype Env = Env(
    oldPidAlive: bool, kubectl: bool, ticketText: Option<string>, preflight: bool, image: bool,
    startKnown: bool, packs: bool, fits: bool, answer: Obj -> Answer, watchRaises: bool,
    payloadRaises: bool, delivery: Option<Delivery>, causeRaises: bool, podCause: bool, deadlineHit: bool,
    numstat: Option<seq<Bytes>>, scratchMade: bool, recheck: FreshAnswers,
    gitAnswers: bool, applyRuns: bool)

  const FRESH_APPLY_FAIL_RC := 20
  const TRANSPORT_MAX := 800_000

  /** Why a run ends in an exception nothing catches. */
  datatype Cause = CreateTimedOut(obj: Obj) | WatchTimedOut | PayloadRaised | OctalTooBig | StagedGone

  /** The outcome of one stage: a value, or an exception. */
  datatype Stage<T> = Value(v: T) | Died(cause: Cause)

  /** Where a run ended: turned away before it began, the cluster failed, no payload and an infrastructure
      cause, no payload at all, contradicting exit codes, a verdict, or an exception. */
  datatype End = TurnedAway | ClusterFailed | NoPayloadInfra | NoPayload | Conflict | Verdict | Exception

  /** The tree the contract held on, the bytes the fresh Job was given and its code are None where there are none. */
  datatype Report = Report(end: End, rc: Option<int>, cause: Option<Cause>, violated: bool, scratch: Option<Tree>,
                           upload: Option<Bytes>, recheck: Option<int>, infra: bool, landed: bool)

  function Ended(end: End, rc: int): Report {
    Report(end, Some(rc), None, false, None, None, None, false, false)
  }

  function Crashed(cause: Cause): Report {
    Report(Exception, None, Some(cause), false, None, None, None, false, false)
  }

  /** A run, or its rest: the report, the outside afterwards and the file operations on the evidence. */
  datatype Ran = Ran(r: Report, s: Scene, ops: seq<FileOp>)

  /** What was fixed before the worker started, and at which states of the repository: the start commit,
      the ticket's admission, the snapshot of the live tree, the packing of HEAD. */
  datatype Start = Start(commit: Option<Commit>, commitAt: nat, admittedAt: nat, snapshotAt: nat, packedAt: nat,
                         before: Contract.Manifest, declared: seq<Names>, transported: Tree)

  predicate Blank(patch: Bytes) {
    Utf8.Decode(patch).Some? && Strip(Utf8.Decode(patch).value) == ""
  }

  function Live(s: Scene): Tree {
    Last(s.moves).live
  }

  function Head(s: Scene): Commit {
    Last(s.moves).head
  }

  // ---------------------------------------------------------------- creating and deleting

  const WORKER: seq<Obj> := [TicketMap, TreeMap, RunnerMap, WorkerJob]

  /** The objects whose creation was reported, in order: the list the cleanup works through. */
  function Reported(acts: seq<Act>): seq<Obj> {
    if acts == [] then []
    else
      var last := acts[|acts| - 1];
      Reported(acts[..|acts| - 1])
      + if last.Tried? && CreateOutcome(last.answer, last.taken) == Created then [last.obj] else []
  }

  datatype Step<T> = Step(out: Stage<T>, s: Scene)

  /** One create, others acting before it: true, or false when refused. */
  function Made(w: Outside, env: Env, o: Obj, s: Scene): Step<bool> {
    var (outcome, t) := Try(Elsewhere(w, s), o, env.answer(o));
    Step(if outcome == Raised then Died(CreateTimedOut(o)) else Value(outcome == Created), t)
  }

  /** Creates in order; the first that fails ends them. */
  function AllMade(w: Outside, env: Env, os: seq<Obj>, s: Scene): Step<bool> {
    if os == [] then Step(Value(true), s)
    else
      var first := Made(w, env, os[0], s);
      if first.out == Value(true) then AllMade(w, env, os[1..], first.s) else first
  }

  /** The `finally` cleanup. */
  function Cleaned(w: Outside, created: seq<Obj>, s: Scene): Scene {
    if created == [] then s else Cleaned(w, created[1..], Remove(Elsewhere(w, s), created[0]))
  }

  // ---------------------------------------------------------------- the fresh check

  /** The fresh Job's exit code and whether its text reads as an execution error. */
  datatype FreshResult = FreshResult(rc: int, execError: bool)

  const EXEC_ERROR := FreshResult(1, true)

  /** What the answers about a created fresh Job amount to. */
  function Observed(a: FreshAnswers): FreshResult {
    if a.completed then FreshResult(0, false)
    else if a.podCause || a.jobCause || a.exitRc == FRESH_APPLY_FAIL_RC then EXEC_ERROR
    else FreshResult(a.exitRc, a.errorTail)
  }

  datatype FreshRun = FreshRun(result: FreshResult, upload: Option<Bytes>)

  const NOT_RUN := FreshRun(EXEC_ERROR, None)

  /** `_fresh_job`: the staged file is measured, uploaded as it then stands, and the Job created. */
  function Rechecked(w: Outside, env: Env, s: Scene): Step<FreshRun> {
    var measured := Elsewhere(w, s);
    if measured.file.None? then Step(Died(StagedGone), measured)
    else if |measured.file.value| > TRANSPORT_MAX then Step(Value(NOT_RUN), measured)
    else
      var uploading := Elsewhere(w, measured);
      if uploading.file.None? then Step(Value(NOT_RUN), uploading)
      else
        var (outcome, t) := Try(uploading, PatchMap, env.answer(PatchMap));
        if outcome == Raised then Step(Died(CreateTimedOut(PatchMap)), t)
        else if outcome == Refused then Step(Value(NOT_RUN), t)
        else
          var job := Made(w, env, FreshJob, t);
          if job.out.Died? then Step(Died(job.out.cause), job.s)
          else if !job.out.v then Step(Value(NOT_RUN), job.s)
          else
            var watched := Elsewhere(w, job.s);
            Step(if env.recheck.raises then Died(WatchTimedOut)
                 else Value(FreshRun(Observed(env.recheck), uploading.file)), watched)
  }

  // ---------------------------------------------------------------- the contract chain

  /** `apply_patch_scratch`: the text is written out as UTF-8 again. */
  function ScratchTree(git: Git, transported: Tree, text: string): Option<Tree> {
    if Strip(text) == "" then Some(transported) else git.apply(transported, Utf8.Encode(text))
  }

  /** The chain's finding; an intact contract holds on the scratch tree. */
  datatype Chain = Violated | Holds(scratch: Tree)

  /** The chain from the identity check on. */
  ghost function Compared(w: Outside, env: Env, start: Start, patch: Bytes, text: string, checked: Scene): Chain {
    var scratch := ScratchTree(w.git, start.transported, text);
    if checked.file != Some(patch) || !env.scratchMade || scratch.None? then Violated
    else if Contract.Intact(start.before, Contract.ManifestOf(scratch.value, []), start.declared)
    then Holds(scratch.value) else Violated
  }

  /** `_contract_chain`: decoding, gate, identity, scratch tree, contract. */
  ghost function Chained(w: Outside, env: Env, start: Start, patch: Bytes, s: Scene): Step<Chain> {
    var text := Utf8.Decode(patch);
    if text.None? then Step(Value(Violated), s)
    else
      var gated := Elsewhere(w, s);
      match PatchGate.Gate(text.value, env.numstat)
      case Raises => Step(Died(OctalTooBig), gated)
      case Reports(violations) =>
        if violations != [] then Step(Value(Violated), gated)
        else
          var checked := Elsewhere(w, gated);
          Step(Value(Compared(w, env, start, patch, text.value, checked)), checked)
  }

  // ---------------------------------------------------------------- the live apply and the verdict

  /** The live tree is provably the tree of the start commit. */
  predicate NoDrift(w: Outside, env: Env, start: Option<Commit>, s: Scene) {
    start.Some? && env.gitAnswers && Head(s) == start.value && Live(s) == w.git.treeOf(Head(s))
  }

  /** `_apply_final_pass`, taken as one step: identity, drift and apply see the same world. */
  function LiveApply(w: Outside, env: Env, start: Option<Commit>, patch: Bytes, s: Scene): Option<Scene> {
    if s.file != Some(patch) || !NoDrift(w, env, start, s) || !env.applyRuns then None else Applied(w, s)
  }

  /** `_publish_evidence`, the alignment of the exit code and the live apply. */
  function Issued(w: Outside, env: Env, start: Start, d: Delivery, r: Report, s: Scene): Ran
    requires d.summary.Some?
  {
    var worker := d.summary.value;
    var ops := PublishOps(worker, worker.rc, r.violated, r.recheck) + if r.infra then Puts(ENV_FAIL_SUMMARY) else [];
    var rc := if r.infra then ENV_FAIL else AlignedRc(worker.rc, r.violated, r.recheck);
    if rc == 0 && !r.violated && (r.recheck.None? || r.recheck.value == 0) && !Blank(d.patch) then
      match LiveApply(w, env, start.commit, d.patch, s)
      case None => Ran(r.(rc := Some(ENV_FAIL)), s, ops + Puts(ENV_FAIL_SUMMARY))
      case Some(t) => Ran(r.(rc := Some(0), landed := true), t, ops)
    else Ran(r.(rc := Some(rc)), s, ops)
  }

  /** A verdict over a violated contract. */
  const OVER_VIOLATED := Report(Verdict, None, None, true, None, None, None, false, false)

  /** A verdict over an intact contract and a fresh check that ran or did not. */
  function OverIntact(scratch: Tree, f: FreshRun): Report {
    Report(Verdict, None, None, false, Some(scratch), f.upload,
           if f.result.execError then None else Some(f.result.rc), f.result.execError, false)
  }

  // ---------------------------------------------------------------- the supervised part

  /** From a delivered payload on. */
  ghost function Judged(w: Outside, env: Env, start: Start, d: Delivery, s: Scene): Ran
    requires d.summary.Some?
  {
    var staged := StagedAs(s, d.patch);
    if d.internalRc.Some? && d.internalRc.value != d.summary.value.rc then
      Ran(Ended(Conflict, ENV_FAIL), staged, Puts(ENV_FAIL_SUMMARY))
    else
      var chain := Chained(w, env, start, d.patch, staged);
      match chain.out
      case Died(cause) => Ran(Crashed(cause), chain.s, [])
      case Value(Violated) => Issued(w, env, start, d, OVER_VIOLATED, chain.s)
      case Value(Holds(scratch)) =>
        var f := Rechecked(w, env, chain.s);
        match f.out
        case Died(cause) => Ran(Crashed(cause), f.s, [])
        case Value(run) => Issued(w, env, start, d, OverIntact(scratch, run), f.s)
  }

  /** Worker, payload, verdict. */
  ghost function Supervised(w: Outside, env: Env, start: Start, s: Scene): Ran {
    var worker := AllMade(w, env, WORKER, s);
    match worker.out
    case Died(cause) => Ran(Crashed(cause), worker.s, [])
    case Value(made) =>
      if !made then Ran(Ended(ClusterFailed, ENV_FAIL), worker.s, Puts(ENV_FAIL_SUMMARY))
      else if env.watchRaises then Ran(Crashed(WatchTimedOut), worker.s, [])
      else
        var t := Elsewhere(w, worker.s);
        if env.payloadRaises then Ran(Crashed(PayloadRaised), t, [])
        else if Delivered(env) then Judged(w, env, start, env.delivery.value, t)
        else if env.causeRaises then Ran(Crashed(WatchTimedOut), t, [])
        else if env.podCause || env.deadlineHit then Ran(Ended(NoPayloadInfra, ENV_FAIL), t, Puts(ENV_FAIL_SUMMARY))
        else Ran(Ended(NoPayload, CHILD_DIED), t, [])
  }

  predicate Delivered(env: Env) {
    env.delivery.Some? && env.delivery.value.summary.Some?
  }

  // ---------------------------------------------------------------- the whole run

  /** What the ticket gate makes of the ticket text on a live tree. */
  ghost function Gated(env: Env, live: Tree): Option<(Contract.Ticket, bool)> {
    if env.ticketText.None? || TicketHeader.ReadHeader(env.ticketText.value).None? then None
    else
      var h := TicketHeader.ReadHeader(env.ticketText.value).value;
      if Contract.Admitted(TicketGate.TicketOf(h), live, []) && !(h.acceptNone && h.accepts != [])
      then Some((TicketGate.TicketOf(h), h.resetNone)) else None
  }

  /** The code a run is turned away with before it writes its marker, in the order of the checks. */
  ghost function Refusals(env: Env, live: Tree): Option<int> {
    if !env.kubectl then Some(ENV_FAIL)
    else if Gated(env, live).None? then Some(TICKET)
    else if Gated(env, live).value.0.declared == [] && !Gated(env, live).value.1 then Some(TICKET)
    else if !env.preflight || !env.image then Some(ENV_FAIL)
    else None
  }

  /** What is fixed by the time HEAD is packed. */
  ghost function StartOf(w: Outside, env: Env, s: Scene): Start {
    var admitted := Elsewhere(w, s);
    var snapshot := Elsewhere(w, admitted);
    var packed := Elsewhere(w, snapshot);
    Start(if env.startKnown then Some(Head(s)) else None,
          |s.moves| - 1, |admitted.moves| - 1, |snapshot.moves| - 1, |packed.moves| - 1,
          Contract.ManifestOf(Live(snapshot), []),
          if Gated(env, Live(admitted)).Some? then Gated(env, Live(admitted)).value.0.declared else [],
          w.git.treeOf(Head(packed)))
  }

  /** An admitted run from the packed tree on; `s` is the outside when HEAD was packed. */
  ghost function Carried(w: Outside, env: Env, before: Dir, start: Start, s: Scene): Ran {
    if !env.packs || !env.fits then
      Ran(Ended(TurnedAway, ENV_FAIL), s,
          OPENING + AbortOps(EvidenceDir.Dir(FullMarker, before.summary), true, Refusal(ENV_FAIL)))
    else
      var ran := Supervised(w, env, start, s);
      Ran(ran.r, Cleaned(w, Reported(ran.s.acts), ran.s), OPENING + ran.ops + [RemoveMarker])
  }

  /** `host_launch_k8s` after the start commit was captured; `before` is the evidence directory as it was. */
  ghost function Launch(w: Outside, env: Env, before: Dir, s: Scene): Ran {
    var admitted := Elsewhere(w, s);
    match Refusals(env, Live(admitted))
    case Some(code) => Ran(Ended(TurnedAway, code), admitted, AbortOps(before, env.oldPidAlive, Refusal(code)))
    case None => Carried(w, env, before, StartOf(w, env, s), Elsewhere(w, Elsewhere(w, admitted)))
  }
}
