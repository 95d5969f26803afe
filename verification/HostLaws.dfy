/** What holds of every supervised run: what it does to the cluster, what it publishes, when it raises and
    what it leaves in the live tree (launcher/k8s.py:121-213, 277-348, 401-944). */
module HostLaws {
  import opened Text
  import opened FileTree
  import opened Verdicts
  import opened EvidenceDir
  import opened World
  import opened HostSpec
  import Utf8
  import PatchGate
  import Contract
  import TicketHeader
  import TicketGate

  // ---------------------------------------------------------------- until it lands, a run is sound

  lemma MadeSound(w: Outside, env: Env, o: Obj, first: Scene, s: Scene)
    requires Sound(w, first, s)
    ensures Sound(w, first, Made(w, env, o, s).s)
  {
    hide Sound, Elsewhere, Try;
    ElsewhereSound(w, first, s);
    TrySound(w, first, Elsewhere(w, s), o, env.answer(o));
  }

  lemma {:induction false} AllMadeSound(w: Outside, env: Env, os: seq<Obj>, first: Scene, s: Scene)
    requires Sound(w, first, s)
    ensures Sound(w, first, AllMade(w, env, os, s).s)
  {
    hide Sound, Made;
    if os != [] {
      MadeSound(w, env, os[0], first, s);
      if Made(w, env, os[0], s).out == Value(true) {
        AllMadeSound(w, env, os[1..], first, Made(w, env, os[0], s).s);
      }
    }
  }

  lemma RecheckedSound(w: Outside, env: Env, first: Scene, s: Scene)
    requires Sound(w, first, s)
    ensures Sound(w, first, Rechecked(w, env, s).s)
  {
    hide Sound, Elsewhere, Try, Made, Observed;
    var measured := Elsewhere(w, s);
    ElsewhereSound(w, first, s);
    var uploading := Elsewhere(w, measured);
    ElsewhereSound(w, first, measured);
    var t := Try(uploading, PatchMap, env.answer(PatchMap)).1;
    TrySound(w, first, uploading, PatchMap, env.answer(PatchMap));
    MadeSound(w, env, FreshJob, first, t);
    ElsewhereSound(w, first, Made(w, env, FreshJob, t).s);
  }

  lemma ChainedSound(w: Outside, env: Env, start: Start, patch: Bytes, first: Scene, s: Scene)
    requires Sound(w, first, s)
    ensures Sound(w, first, Chained(w, env, start, patch, s).s)
  {
    hide Sound, Elsewhere, PatchGate.Gate, Contract.Intact, Contract.ManifestOf, ScratchTree;
    ElsewhereSound(w, first, s);
    ElsewhereSound(w, first, Elsewhere(w, s));
  }

  /** A run either stays sound to its end, or lands its patch on a sound, clean scene. */
  ghost predicate LandsOn(w: Outside, env: Env, start: Start, first: Scene, patch: Bytes, t: Scene, ran: Ran) {
    && Sound(w, first, t)
    && if ran.r.landed then LiveApply(w, env, start.commit, patch, t) == Some(ran.s) else ran.s == t
  }

  lemma IssuedLands(w: Outside, env: Env, start: Start, d: Delivery, r: Report, first: Scene, s: Scene)
    requires Sound(w, first, s) && d.summary.Some? && !r.landed
    ensures LandsOn(w, env, start, first, d.patch, s, Issued(w, env, start, d, r, s))
  {
    hide Sound, LiveApply, PublishOps, Blank;
  }

  lemma JudgedLands(w: Outside, env: Env, start: Start, d: Delivery, first: Scene, s: Scene) returns (t: Scene)
    requires Sound(w, first, s) && d.summary.Some?
    ensures LandsOn(w, env, start, first, d.patch, t, Judged(w, env, start, d, s))
  {
    hide Sound, LandsOn, Chained, Rechecked, Issued;
    var staged := StagedAs(s, d.patch);
    StageSound(w, first, s, d.patch);
    var ran := Judged(w, env, start, d, s);
    t := ran.s;
    var chain := Chained(w, env, start, d.patch, staged);
    if d.internalRc.Some? && d.internalRc.value != d.summary.value.rc {
      StaysSound(w, env, start, first, d.patch, ran);
    } else {
      ChainedSound(w, env, start, d.patch, first, staged);
      if chain.out.Died? {
        StaysSound(w, env, start, first, d.patch, ran);
      } else if chain.out.v.Violated? {
        t := chain.s;
        IssuedLands(w, env, start, d, OVER_VIOLATED, first, t);
      } else {
        var f := Rechecked(w, env, chain.s);
        RecheckedSound(w, env, first, chain.s);
        if f.out.Died? {
          StaysSound(w, env, start, first, d.patch, ran);
        } else {
          t := f.s;
          IssuedLands(w, env, start, d, OverIntact(chain.out.v.scratch, f.out.v), first, t);
        }
      }
    }
  }

  lemma StaysSound(w: Outside, env: Env, start: Start, first: Scene, patch: Bytes, ran: Ran)
    requires Sound(w, first, ran.s) && !ran.r.landed
    ensures LandsOn(w, env, start, first, patch, ran.s, ran)
  {
  }

  /** The patch the payload carried, when one arrived. */
  ghost function PatchOf(env: Env): Bytes {
    if env.delivery.Some? then env.delivery.value.patch else []
  }

  lemma SupervisedLands(w: Outside, env: Env, start: Start, first: Scene, s: Scene) returns (t: Scene)
    requires Sound(w, first, s)
    ensures LandsOn(w, env, start, first, PatchOf(env), t, Supervised(w, env, start, s))
  {
    hide Sound, LandsOn, AllMade, Judged, Elsewhere;
    var ran, worker := Supervised(w, env, start, s), AllMade(w, env, WORKER, s);
    t := ran.s;
    AllMadeSound(w, env, WORKER, first, s);
    ElsewhereSound(w, first, worker.s);
    if worker.out == Value(true) && !env.watchRaises && !env.payloadRaises && Delivered(env) {
      t := JudgedLands(w, env, start, env.delivery.value, first, Elsewhere(w, worker.s));
    } else {
      StaysSound(w, env, start, first, PatchOf(env), ran);
    }
  }

  // ---------------------------------------------------------------- what a run tries in the cluster

  const ORDER: seq<Obj> := [TicketMap, TreeMap, RunnerMap, WorkerJob, PatchMap, FreshJob]

  ghost predicate CameOut(a: Act, outcome: Creation) {
    a.Tried? && CreateOutcome(a.answer, a.taken) == outcome
  }

  /** The creates tried: in order, each once, and none after one that failed. */
  ghost predicate Attempts(env: Env, acts: seq<Act>) {
    && |acts| <= |ORDER|
    && (forall i | 0 <= i < |acts| ::
          acts[i].Tried? && acts[i].obj == ORDER[i] && acts[i].answer == env.answer(ORDER[i]))
    && forall i | 0 <= i < |acts| - 1 :: CameOut(acts[i], Created)
  }

  /** So far every one of the first `n` creates was reported. */
  ghost predicate AllReported(env: Env, acts: seq<Act>, n: nat) {
    Attempts(env, acts) && |acts| == n && (n > 0 ==> CameOut(acts[n - 1], Created))
  }

  /** The scene after a create in its turn, and what its outcome says about it. */
  ghost predicate Attempted(env: Env, n: nat, outcome: Creation, s: Scene) {
    && n < |ORDER| && Attempts(env, s.acts) && |s.acts| == n + 1
    && CameOut(s.acts[n], outcome) && s.acts[n].obj == ORDER[n]
  }

  lemma TryAttempts(env: Env, s: Scene, n: nat)
    requires AllReported(env, s.acts, n) && n < |ORDER|
    ensures var (outcome, t) := Try(s, ORDER[n], env.answer(ORDER[n])); Attempted(env, n, outcome, t)
  {
  }

  lemma MadeAttempts(w: Outside, env: Env, n: nat, s: Scene)
    requires AllReported(env, s.acts, n) && n < |ORDER|
    ensures var step := Made(w, env, ORDER[n], s);
            && Attempts(env, step.s.acts) && |step.s.acts| == n + 1
            && (step.out == Value(true) <==> AllReported(env, step.s.acts, n + 1))
            && step.s.acts[n].Tried? && step.s.acts[n].obj == ORDER[n]
            && (step.out.Died? <==> CameOut(step.s.acts[n], Raised))
            && (step.out.Died? ==> step.out.cause == CreateTimedOut(ORDER[n])) && step.s.clock == s.clock + 1
  {
    hide Attempts, Try;
    TryKeeps(Elsewhere(w, s), ORDER[n], env.answer(ORDER[n]));
    TryAttempts(env, Elsewhere(w, s), n);
  }

  lemma {:induction false} AllMadeAttempts(w: Outside, env: Env, n: nat, s: Scene)
    requires AllReported(env, s.acts, n) && n <= 4
    ensures var step := AllMade(w, env, ORDER[n..4], s);
            && Attempts(env, step.s.acts) && |step.s.acts| <= 4
            && (step.out == Value(true) <==> AllReported(env, step.s.acts, 4))
            && (step.out.Died? <==> RaisedLast(step.s.acts))
            && (step.out.Died? ==> step.out.cause == CreateTimedOut(step.s.acts[|step.s.acts| - 1].obj))
            && (step.out == Value(true) ==> step.s.clock == s.clock + 4 - n)
            && (step.out == Value(false) ==> RefusedLast(step.s.acts))
    decreases 4 - n
  {
    hide Made;
    if n < 4 {
      assert ORDER[n..4][1..] == ORDER[n + 1..4];
      MadeAttempts(w, env, n, s);
      if Made(w, env, ORDER[n], s).out == Value(true) {
        AllMadeAttempts(w, env, n + 1, Made(w, env, ORDER[n], s).s);
      }
    }
  }

  /** The last create timed out, or was refused. */
  ghost predicate RaisedLast(acts: seq<Act>) {
    acts != [] && CameOut(acts[|acts| - 1], Raised)
  }

  ghost predicate RefusedLast(acts: seq<Act>) {
    acts != [] && CameOut(acts[|acts| - 1], Refused)
  }

  /** `file` is staged and others' next occasion is `t`: at the fresh check it will be there and small
      enough to be measured, and still there to be read. */
  predicate Uploads(w: Outside, t: nat, file: Option<Bytes>) {
    var measured := After(w, t, file);
    measured.Some? && |measured.value| <= 800_000 && After(w, t + 1, measured).Some?
  }

  /** The fresh check, by what others do to the staged file and how its creates come out: when it raises,
      when it is not run, and when its result is the Job's. */
  ghost predicate RecheckMeans(w: Outside, env: Env, s: Scene, step: Step<FreshRun>) {
    var acts, measured := step.s.acts, After(w, s.clock, s.file);
    && Attempts(env, acts) && (|acts| > 4 || AllReported(env, acts, 4)) && (|acts| > 4 <==> Uploads(w, s.clock, s.file))
    && (step.out == Died(StagedGone) <==> measured.None?)
    && (step.out == Value(NOT_RUN) <==> measured.Some? && (!Uploads(w, s.clock, s.file) || RefusedLast(acts)))
    && (step.out == Died(WatchTimedOut) <==> AllReported(env, acts, 6) && env.recheck.raises)
    && (step.out.Value? && step.out.v.upload.Some? <==> AllReported(env, acts, 6) && !env.recheck.raises)
    && (step.out.Value? && step.out.v.upload.Some? ==>
          step.out.v == FreshRun(Observed(env.recheck), After(w, s.clock + 1, measured)))
    && (step.out.Value? && step.out.v.upload.None? ==> step.out.v == NOT_RUN)
    && (RaisedLast(acts) <==> step.out.Died? && step.out.cause.CreateTimedOut?)
    && (RaisedLast(acts) ==> step.out == Died(CreateTimedOut(acts[|acts| - 1].obj)))
    && (step.out.Died? ==> RaisedLast(acts) || step.out.cause == StagedGone || step.out.cause == WatchTimedOut)
  }

  lemma OthersKeep(w: Outside, s: Scene)
    ensures var t := Elsewhere(w, s); t.acts == s.acts && t.clock == s.clock + 1 && t.file == After(w, s.clock, s.file)
  {
  }

  lemma RecheckedMeans(w: Outside, env: Env, s: Scene)
    requires AllReported(env, s.acts, 4)
    ensures RecheckMeans(w, env, s, Rechecked(w, env, s))
  {
    hide Elsewhere, Observed, Attempts, Try, Made, After;
    Reported4(env, s.acts);
    var measured := Elsewhere(w, s);
    OthersKeep(w, s);
    var uploading := Elsewhere(w, measured);
    OthersKeep(w, measured);
    CountsDiffer(env, s.acts);
    if Uploads(w, s.clock, s.file) {
      TryAttempts(env, uploading, 4);
      var (outcome, t) := Try(uploading, PatchMap, env.answer(PatchMap));
      CountsDiffer(env, t.acts);
      if outcome == Created {
        MadeAttempts(w, env, 5, t);
        var job := Made(w, env, FreshJob, t);
        CountsDiffer(env, job.s.acts);
        OthersKeep(w, job.s);
      }
    }
  }

  lemma Reported4(env: Env, acts: seq<Act>)
    requires AllReported(env, acts, 4)
    ensures Attempts(env, acts) && !RaisedLast(acts)
  {
  }

  lemma TryKeeps(s: Scene, o: Obj, answer: Answer)
    ensures Try(s, o, answer).1.clock == s.clock
  {
  }

  /** The transported tree with exactly the patch's bytes applied. */
  function ScratchOf(git: Git, start: Start, patch: Bytes): Option<Tree> {
    if Blank(patch) then Some(start.transported) else git.apply(start.transported, patch)
  }

  /** The gate passes the decoded text, and the contract holds on the transported tree with the patch. */
  ghost predicate Acceptable(git: Git, env: Env, start: Start, patch: Bytes) {
    && Utf8.Decode(patch).Some?
    && PatchGate.Gate(Utf8.Decode(patch).value, env.numstat) == PatchGate.Reports([])
    && ScratchOf(git, start, patch).Some?
    && Contract.Intact(start.before, Contract.ManifestOf(ScratchOf(git, start, patch).value, []), start.declared)
  }

  /** The contract chain: it finds no violation exactly if the patch is acceptable, the scratch directory
      can be made, and others have left the patch in the staged file at its identity check; it raises
      exactly if the gate does. */
  ghost predicate ChainMeans(w: Outside, env: Env, start: Start, patch: Bytes, s: Scene, step: Step<Chain>) {
    && step.s.acts == s.acts
    && (step.out.Died? <==> OctalRaises(env, patch)) && (step.out.Died? ==> step.out.cause == OctalTooBig)
    && (step.out.Value? && step.out.v.Holds? <==>
          && Acceptable(w.git, env, start, patch) && env.scratchMade
          && After(w, s.clock + 1, After(w, s.clock, s.file)) == Some(patch))
    && (step.out.Value? && step.out.v.Holds? ==>
          && Some(step.out.v.scratch) == ScratchOf(w.git, start, patch)
          && step.s.file == Some(patch) && step.s.clock == s.clock + 2)
  }

  /** The gate meets an octal escape above 255 in the patch's text. */
  ghost predicate OctalRaises(env: Env, patch: Bytes) {
    Utf8.Decode(patch).Some? && PatchGate.Gate(Utf8.Decode(patch).value, env.numstat).Raises?
  }

  lemma ChainedMeans(w: Outside, env: Env, start: Start, patch: Bytes, s: Scene)
    ensures ChainMeans(w, env, start, patch, s, Chained(w, env, start, patch, s))
  {
    hide PatchGate.Gate, Contract.Intact, Contract.ManifestOf, Elsewhere, Strip, Utf8.Decode, Utf8.Encode, After;
    OthersKeep(w, s);
    OthersKeep(w, Elsewhere(w, s));
    if Utf8.Decode(patch).Some? { Utf8.EncodeOfDecode(patch); }
  }

  // ---------------------------------------------------------------- what a verdict means

  /** The summary the file operations leave behind, if they write one. */
  function Left(ops: seq<FileOp>): Option<Summary> {
    if ops != [] && ops[|ops| - 1].WriteSummary? then Some(ops[|ops| - 1].summary) else None
  }

  /** What a published summary means for the run that issued it. */
  ghost predicate VerdictMeaning(git: Git, env: Env, start: Start, d: Delivery, r: Report, published: Summary)
    requires d.summary.Some?
  {
    var worker := d.summary.value;
    && r.rc == Some(published.rc)
    && (d.internalRc.None? || d.internalRc == Some(worker.rc))
    && (!r.violated ==> Acceptable(git, env, start, d.patch) && r.scratch == ScratchOf(git, start, d.patch))
    && (r.violated ==>
          && r.recheck.None? && !r.infra && !r.landed
          && published == Summary(if worker.rc == 0 then 1 else worker.rc, FAIL, Some(ContractFail)))
    && (r.infra ==> r.recheck.None? && !r.landed && published == Summary(16, FAIL, Some(EnvFail)))
    && (!r.violated && !r.infra ==>
          && r.recheck.Some? && r.upload.Some? && Observed(env.recheck) == FreshResult(r.recheck.value, false)
          && published == if r.recheck.value != 0 then Summary(r.recheck.value, FAIL, Some(FreshFail))
                          else if worker.rc == 0 && !Blank(d.patch) && !r.landed then ENV_FAIL_SUMMARY else worker)
    && (r.landed ==> worker.rc == 0 && !r.violated && !r.infra && r.recheck == Some(0) && !Blank(d.patch))
  }

  /** How a verdict is reached: over a violated contract, or over an intact one after the fresh check. */
  ghost predicate Premises(git: Git, env: Env, start: Start, d: Delivery, r: Report) {
    && d.summary.Some? && (d.internalRc.None? || d.internalRc == Some(d.summary.value.rc))
    && !r.landed && r.end == Verdict
    && (r.violated ==> r == OVER_VIOLATED)
    && (!r.violated ==>
          && Acceptable(git, env, start, d.patch) && r.scratch == ScratchOf(git, start, d.patch)
          && (r.infra <==> r.recheck.None?)
          && (r.recheck.Some? ==> r.upload.Some? && Observed(env.recheck) == FreshResult(r.recheck.value, false)))
  }

  lemma IssuedMeans(w: Outside, env: Env, start: Start, d: Delivery, r: Report, s: Scene)
    requires Premises(w.git, env, start, d, r)
    ensures var ran := Issued(w, env, start, d, r, s);
            && Writes(ran.ops) && Left(ran.ops).Some?
            && VerdictMeaning(w.git, env, start, d, ran.r, Left(ran.ops).value)
            && ran.r == r.(rc := ran.r.rc, landed := ran.r.landed) && ran.s.acts == s.acts
  {
    hide Acceptable, ScratchOf, Observed, Blank, NoDrift;
    WritesPut(PublishOps(d.summary.value, d.summary.value.rc, r.violated, r.recheck));
    PublishWrites(d.summary.value, d.summary.value.rc, r.violated, r.recheck);
  }

  lemma PublishWrites(worker: Summary, rc: int, violated: bool, freshRc: Option<int>)
    ensures var ops := PublishOps(worker, rc, violated, freshRc);
            Writes(ops) && Left(ops) == Some(Published(worker, rc, violated, freshRc))
  {
  }

  lemma WritesPut(ops: seq<FileOp>)
    ensures Writes(ops) ==> Writes(ops + Puts(ENV_FAIL_SUMMARY))
    ensures Left(ops + Puts(ENV_FAIL_SUMMARY)) == Some(ENV_FAIL_SUMMARY)
  {
  }

  // ---------------------------------------------------------------- every way a supervised run ends

  predicate Conflicting(d: Delivery) {
    d.summary.Some? && d.internalRc.Some? && d.internalRc.value != d.summary.value.rc
  }

  /** The worker's objects are there and a payload, or none, was read: the run goes on from here. */
  ghost predicate Arrived(env: Env, acts: seq<Act>) {
    AllReported(env, acts, 4) && !env.watchRaises && !env.payloadRaises
  }

  /** No payload, and the calls that look for a cause return. */
  predicate Undelivered(env: Env) {
    !Delivered(env) && !env.causeRaises
  }

  /** A payload that contradicts nothing. */
  predicate Judgeable(env: Env) {
    Delivered(env) && !Conflicting(env.delivery.value)
  }

  /** The contract chain finds no violation; its patch was staged when others' next occasion was `t`. */
  ghost predicate ContractHeld(w: Outside, env: Env, start: Start, t: nat) {
    && Acceptable(w.git, env, start, PatchOf(env)) && env.scratchMade
    && After(w, t + 1, After(w, t, Some(PatchOf(env)))) == Some(PatchOf(env))
  }

  /** Others remove the staged patch right after its identity check. */
  ghost predicate PatchRemoved(w: Outside, env: Env, start: Start, t: nat) {
    Judgeable(env) && ContractHeld(w, env, start, t) && w.deeds(t + 2).file == Some(None)
  }

  /** What stood behind an exception. */
  ghost predicate CauseHolds(w: Outside, env: Env, start: Start, t: nat, acts: seq<Act>, cause: Cause) {
    match cause
    case CreateTimedOut(o) => RaisedLast(acts) && acts[|acts| - 1].obj == o
    case WatchTimedOut =>
      || (AllReported(env, acts, 4) && (env.watchRaises || (env.causeRaises && !Delivered(env))))
      || (AllReported(env, acts, 6) && env.recheck.raises)
    case PayloadRaised => AllReported(env, acts, 4) && env.payloadRaises
    case OctalTooBig => Arrived(env, acts) && Judgeable(env) && OctalRaises(env, PatchOf(env))
    case StagedGone => Arrived(env, acts) && PatchRemoved(w, env, start, t)
  }

  /** When a run raises: a create timed out; or, after the worker's creates, a call, the payload or the
      gate raises or others remove the staged patch; or, after the fresh Job's, a call. */
  ghost predicate MustRaise(w: Outside, env: Env, start: Start, t: nat, acts: seq<Act>) {
    || RaisedLast(acts)
    || (AllReported(env, acts, 4) && (env.watchRaises || env.payloadRaises))
    || (Arrived(env, acts) && !Delivered(env) && env.causeRaises)
    || (Arrived(env, acts) && Judgeable(env) && OctalRaises(env, PatchOf(env)))
    || (Arrived(env, acts) && PatchRemoved(w, env, start, t))
    || (AllReported(env, acts, 6) && env.recheck.raises)
  }

  /** The fresh check counts as green: the Job completed, or it did not and no cause was named, its exit
      code was 0 and its log reads as no error. */
  predicate Green(a: FreshAnswers) {
    a.completed || (!a.podCause && !a.jobCause && a.exitRc == 0 && !a.errorTail)
  }

  /** The answers about the fresh Job make the check an execution error: it did not complete, and a cause
      was named for its Pod or for itself, or its patch did not apply there, or its log says so. */
  predicate Unusable(a: FreshAnswers) {
    !a.completed && (a.podCause || a.jobCause || a.exitRc == 20 || a.errorTail)
  }

  /** The fresh check of a verdict: not over a violated contract; when it was tried, when it gave a code,
      when that code is 0, and which bytes it was given. */
  ghost predicate FreshEvidence(w: Outside, env: Env, start: Start, t: nat, r: Report, acts: seq<Act>) {
    && (r.violated <==> !ContractHeld(w, env, start, t))
    && (r.violated ==> |acts| == 4 && r.upload.None?)
    && (!r.violated ==> (|acts| > 4 <==> Uploads(w, t + 2, Some(PatchOf(env)))))
    && (r.upload.Some? <==> AllReported(env, acts, 6))
    && (r.upload.Some? ==> r.upload == After(w, t + 3, After(w, t + 2, Some(PatchOf(env)))))
    && (!r.violated ==> (r.infra <==> !AllReported(env, acts, 6) || Unusable(env.recheck)))
    && (r.recheck.Some? <==> !r.violated && !r.infra)
    && (r.recheck.Some? ==> r.recheck == Some(if env.recheck.completed then 0 else env.recheck.exitRc))
    && (r.recheck.Some? ==> (r.recheck == Some(0) <==> Green(env.recheck)))
  }

  /** Every way the supervised part ends, and exactly when. The payload's patch is staged when others'
      next occasion is `t`. */
  ghost predicate RunMeans(w: Outside, env: Env, start: Start, t: nat, ran: Ran) {
    var acts := ran.s.acts;
    && Writes(ran.ops) && Attempts(env, acts)
    && (ran.r.end == Exception <==> MustRaise(w, env, start, t, acts))
    && (ran.r.end == ClusterFailed <==> |acts| <= 4 && RefusedLast(acts))
    && (ran.r.end == NoPayloadInfra <==> Arrived(env, acts) && Undelivered(env) && (env.podCause || env.deadlineHit))
    && (ran.r.end == NoPayload <==> Arrived(env, acts) && Undelivered(env) && !env.podCause && !env.deadlineHit)
    && (ran.r.end == Conflict <==> Arrived(env, acts) && Delivered(env) && Conflicting(env.delivery.value))
    && match ran.r.end
       case TurnedAway => false
       case Verdict =>
         && Delivered(env) && Left(ran.ops).Some?
         && VerdictMeaning(w.git, env, start, env.delivery.value, ran.r, Left(ran.ops).value)
         && FreshEvidence(w, env, start, t, ran.r, acts)
       case Exception =>
         && ran.r.cause.Some? && ran.r == Crashed(ran.r.cause.value) && ran.ops == []
         && CauseHolds(w, env, start, t, acts, ran.r.cause.value)
       case NoPayload => ran.r == Ended(NoPayload, CHILD_DIED) && ran.ops == []
       case end => ran.r == Ended(end, ENV_FAIL) && ran.ops == Puts(ENV_FAIL_SUMMARY)
  }

  lemma JudgedMeans(w: Outside, env: Env, start: Start, s: Scene)
    requires Arrived(env, s.acts) && Delivered(env)
    ensures RunMeans(w, env, start, s.clock, Judged(w, env, start, env.delivery.value, s))
  {
    hide Attempts, AllReported, Chained, Rechecked, Issued, VerdictMeaning, Acceptable, ScratchOf, Observed, Writes;
    hide OctalRaises;
    hide CameOut, After, RaisedLast, RefusedLast;
    var d := env.delivery.value;
    var staged := StagedAs(s, d.patch);
    Reported4(env, s.acts);
    CountsDiffer(env, s.acts);
    WritesOne();
    if !Conflicting(d) {
      ChainedMeans(w, env, start, d.patch, staged);
      var chain := Chained(w, env, start, d.patch, staged);
      if chain.out.Value? {
        if chain.out.v.Violated? {
          IssuedMeans(w, env, start, d, OVER_VIOLATED, chain.s);
        } else {
          RecheckedMeans(w, env, chain.s);
          AfterNone(w, s.clock + 2, d.patch);
          ObservedExactly(env.recheck);
          var f := Rechecked(w, env, chain.s);
          CountsDiffer(env, f.s.acts);
          if f.out.Value? {
            IssuedMeans(w, env, start, d, OverIntact(chain.out.v.scratch, f.out.v), f.s);
          }
        }
      }
    }
  }

  lemma AfterNone(w: Outside, t: nat, patch: Bytes)
    ensures After(w, t, Some(patch)).None? <==> w.deeds(t).file == Some(None)
  {
  }

  lemma ObservedExactly(a: FreshAnswers)
    ensures Observed(a).execError <==> Unusable(a)
    ensures !Unusable(a) ==> Observed(a).rc == if a.completed then 0 else a.exitRc
    ensures Observed(a) == FreshResult(0, false) <==> Green(a)
  {
  }

  lemma CountsDiffer(env: Env, acts: seq<Act>)
    ensures AllReported(env, acts, 4) ==> |acts| == 4 && Attempts(env, acts)
    ensures AllReported(env, acts, 6) ==> |acts| == 6 && Attempts(env, acts)
    ensures AllReported(env, acts, 4) || AllReported(env, acts, 6) ==> !RaisedLast(acts) && !RefusedLast(acts)
    ensures RaisedLast(acts) ==> !RefusedLast(acts)
  {
  }

  lemma WritesOne()
    ensures Writes([]) && Writes(Puts(ENV_FAIL_SUMMARY))
  {
  }

  /** The occasions others have had before the worker's payload is read: one before each create and one
      while the worker runs; and those before the worker is started. */
  const WORKER_OCCASIONS: nat := 5
  const START_OCCASIONS: nat := 3

  /** Every way the supervised part ends: what it tried, when and why it raised, and what it published. */
  lemma SupervisedMeans(w: Outside, env: Env, start: Start, s: Scene)
    requires s.acts == []
    ensures RunMeans(w, env, start, s.clock + WORKER_OCCASIONS, Supervised(w, env, start, s))
  {
    hide Attempts, AllReported, AllMade, Judged, VerdictMeaning, Writes, OctalRaises, FreshEvidence, ContractHeld;
    hide RaisedLast, RefusedLast;
    WritesOne();
    NothingTried(env);
    assert ORDER[0..4] == WORKER;
    AllMadeAttempts(w, env, 0, s);
    var worker := AllMade(w, env, WORKER, s);
    OthersKeep(w, worker.s);
    CountsDiffer(env, worker.s.acts);
    if Arrived(env, worker.s.acts) && Delivered(env) {
      JudgedMeans(w, env, start, Elsewhere(w, worker.s));
    }
  }

  lemma NothingTried(env: Env)
    ensures AllReported(env, [], 0)
  {
  }

  // ---------------------------------------------------------------- the cleanup and the cluster

  function Removals(os: seq<Obj>): seq<Act> {
    seq(|os|, i requires 0 <= i < |os| => Removed(os[i]))
  }

  predicate Distinct(os: seq<Obj>) {
    forall i, j | 0 <= i < j < |os| :: os[i] != os[j]
  }

  lemma {:induction false} CleanedActs(w: Outside, created: seq<Obj>, s: Scene)
    ensures var t := Cleaned(w, created, s);
            && t.acts == s.acts + Removals(created) && t.ours == s.ours - (set o | o in created)
            && OthersMoved(s.moves, t.moves)
    decreases |created|
  {
    hide Elsewhere;
    if created == [] {
      assert s.acts + Removals(created) == s.acts;
    } else {
      OthersOnly(w, s);
      var v := Remove(Elsewhere(w, s), created[0]);
      CleanedActs(w, created[1..], v);
      assert Removals(created) == [Removed(created[0])] + Removals(created[1..]);
      assert v.acts == s.acts + [Removed(created[0])];
    }
  }

  /** Deleting objects of its own, each once, a run keeps the frame. */
  lemma {:induction false} CleanedFramed(w: Outside, first: Scene, created: seq<Obj>, s: Scene)
    requires Framed(w, first, s) && Distinct(created) && forall o | o in created :: o in s.ours
    ensures Framed(w, first, Cleaned(w, created, s))
    decreases |created|
  {
    hide Framed, Elsewhere;
    if created != [] {
      var u := Elsewhere(w, s);
      OthersOnly(w, s);
      ElsewhereFramed(w, first, s);
      RemoveFramed(w, first, u, created[0]);
      CleanedFramed(w, first, created[1..], Remove(u, created[0]));
    }
  }

  /** The reported creates are the first ones, up to the one that failed. */
  lemma {:induction false} ReportedPrefix(env: Env, acts: seq<Act>)
    requires Attempts(env, acts)
    ensures var n := |acts|;
            Reported(acts) == if n == 0 || CameOut(acts[n - 1], Created) then ORDER[..n] else ORDER[..n - 1]
  {
    var n := |acts|;
    if n > 0 {
      ReportedPrefix(env, acts[..n - 1]);
      assert ORDER[..n] == ORDER[..n - 1] + [ORDER[n - 1]];
    }
  }

  /** The objects standing before the cleanup: the reported ones, and one whose create timed out though
      the server made it. */
  lemma {:induction false} StandingTried(env: Env, acts: seq<Act>)
    requires Attempts(env, acts)
    ensures forall o :: o in Standing(acts) <==> o in Reported(acts) || Tried(o, Lost, false) in acts
  {
    if acts != [] {
      var init, last := acts[..|acts| - 1], acts[|acts| - 1];
      InitAttempts(env, acts);
      StandingTried(env, init);
      assert acts == init + [last];
      StandingGrows(init, last);
    }
  }

  lemma InitAttempts(env: Env, acts: seq<Act>)
    requires Attempts(env, acts) && acts != []
    ensures Attempts(env, acts[..|acts| - 1]) && acts[|acts| - 1].Tried?
  {
  }

  lemma StandingGrows(init: seq<Act>, last: Act)
    requires last.Tried?
    ensures forall o :: o in Standing(init + [last]) <==>
            o in Standing(init) || (o == last.obj && Makes(last.answer, last.taken))
    ensures forall o :: o in Reported(init + [last]) <==>
              o in Reported(init) || (o == last.obj && CreateOutcome(last.answer, last.taken) == Created)
  {
    StandingSnoc(init, last);
    assert (init + [last])[..|init|] == init;
  }

  /** An object left unreported was the last create, and is not on the cleanup's list. */
  lemma LostIsLast(env: Env, acts: seq<Act>, o: Obj)
    requires Attempts(env, acts) && Tried(o, Lost, false) in acts
    ensures RaisedLast(acts) && acts[|acts| - 1].obj == o && o !in Reported(acts)
  {
    ReportedPrefix(env, acts);
    OrderDistinct();
    var i :| 0 <= i < |acts| && acts[i] == Tried(o, Lost, false);
    assert !CameOut(acts[i], Created);
  }

  lemma AttemptsShort(env: Env, acts: seq<Act>)
    requires Attempts(env, acts)
    ensures |acts| <= |ORDER|
  {
  }

  lemma OrderDistinct()
    ensures Distinct(ORDER)
  {
  }

  // ---------------------------------------------------------------- whole runs

  ghost function Packed(w: Outside, s: Scene): Scene {
    Elsewhere(w, Elsewhere(w, Elsewhere(w, s)))
  }

  /** The run is admitted and its tree packed: it goes on to its worker. */
  ghost predicate GoesOn(w: Outside, env: Env, s: Scene) {
    Refusals(env, Live(Elsewhere(w, s))).None? && env.packs && env.fits
  }

  /** The supervised part of a run that goes on. */
  ghost function Body(w: Outside, env: Env, s: Scene): Ran {
    Supervised(w, env, StartOf(w, env, s), Packed(w, s))
  }

  /** Others' next occasion when the payload's patch is staged. */
  function Staging(s: Scene): nat {
    s.clock + START_OCCASIONS + WORKER_OCCASIONS
  }

  lemma BodyMeans(w: Outside, env: Env, s: Scene)
    requires s.acts == []
    ensures RunMeans(w, env, StartOf(w, env, s), Staging(s), Body(w, env, s)) && Packed(w, s).acts == []
  {
    hide RunMeans, Supervised, StartOf, Elsewhere;
    OthersKeep(w, s);
    OthersKeep(w, Elsewhere(w, s));
    OthersKeep(w, Elsewhere(w, Elsewhere(w, s)));
    SupervisedMeans(w, env, StartOf(w, env, s), Packed(w, s));
  }

  lemma LaunchIs(w: Outside, env: Env, before: EvidenceDir.Dir, s: Scene)
    ensures var ran, body := Launch(w, env, before, s), Body(w, env, s);
            if GoesOn(w, env, s) then
              ran == Ran(body.r, Cleaned(w, Reported(body.s.acts), body.s), OPENING + body.ops + [RemoveMarker])
            else
              match Refusals(env, Live(Elsewhere(w, s)))
              case Some(code) =>
                ran == Ran(Ended(TurnedAway, code), Elsewhere(w, s), AbortOps(before, env.oldPidAlive, Refusal(code)))
              case None =>
                ran == Ran(Ended(TurnedAway, ENV_FAIL), Packed(w, s),
                           OPENING + AbortOps(EvidenceDir.Dir(FullMarker, before.summary), true, Refusal(ENV_FAIL)))
  {
    hide Supervised, Elsewhere, Gated, StartOf, AbortOps, Cleaned;
  }

  lemma PackedKeeps(w: Outside, s: Scene)
    requires Fresh(s)
    ensures Sound(w, s, Packed(w, s)) && Packed(w, s).acts == [] && Sound(w, s, Elsewhere(w, s))
  {
    hide Sound, Elsewhere;
    BeginsSound(w, s);
    ElsewhereSound(w, s, s);
    ElsewhereSound(w, s, Elsewhere(w, s));
    ElsewhereSound(w, s, Elsewhere(w, Elsewhere(w, s)));
    OthersKeep(w, s);
    OthersKeep(w, Elsewhere(w, s));
    OthersKeep(w, Elsewhere(w, Elsewhere(w, s)));
  }

  lemma LandsFramed(w: Outside, env: Env, start: Start, first: Scene, patch: Bytes, t: Scene, ran: Ran)
    requires LandsOn(w, env, start, first, patch, t, ran)
    ensures Framed(w, first, ran.s)
  {
    hide Framed;
    if ran.r.landed { FrameOnly(w, first, t, ran.s); }
  }

  ghost predicate Idle(w: Outside) {
    forall t :: w.deeds(t).gone == {} && w.deeds(t).made == {}
  }

  /** The run's part in the cluster: the creates it tried, each object once and in order; then each
      reported one deleted, once, and nothing else. What stays behind is an object whose create the
      server carried out and the call never reported; everything of others is left to others, and
      with them idle the cluster is as it was, and that object. */
  ghost predicate ClusterMeaning(w: Outside, env: Env, s: Scene, ran: Ran, tried: seq<Act>) {
    && Attempts(env, tried) && ran.s.acts == tried + Removals(Reported(tried)) && Distinct(Reported(tried))
    && (forall o :: o in ran.s.ours <==> Tried(o, Lost, false) in tried)
    && (ran.r.rc.Some? ==> ran.s.ours == {})
    && (forall o :: Spared(w, s, ran.s, o))
    && (Idle(w) ==> ran.s.objects == s.objects + ran.s.ours)
  }

  lemma IdleCluster(w: Outside, s: Scene, t: Scene)
    requires Framed(w, s, t) && Idle(w)
    ensures t.objects == s.objects + t.ours
  {
    forall o
      ensures o in t.objects <==> o in s.objects + t.ours
    {
      assert Spared(w, s, t, o) && Untouched(w, o);
    }
  }

  lemma ClusterFrame(w: Outside, env: Env, before: EvidenceDir.Dir, s: Scene) returns (tried: seq<Act>)
    requires Fresh(s)
    ensures ClusterMeaning(w, env, s, Launch(w, env, before, s), tried)
  {
    hide Attempts, Framed, Supervised, Elsewhere, LandsOn, RunMeans, Launch, Cleaned, Spared, StartOf, Idle;
    var ran := Launch(w, env, before, s);
    LaunchIs(w, env, before, s);
    PackedKeeps(w, s);
    if GoesOn(w, env, s) {
      var body := Body(w, env, s);
      tried := body.s.acts;
      var t := SupervisedLands(w, env, StartOf(w, env, s), s, Packed(w, s));
      LandsFramed(w, env, StartOf(w, env, s), s, PatchOf(env), t, body);
      BodyMeans(w, env, s);
      RunTried(w, env, StartOf(w, env, s), Staging(s), body);
      CleanedTried(w, env, s, body.s);
    } else {
      tried := [];
      NothingTried(env);
      OthersKeep(w, s);
      NothingStands(env, w, s, ran.s);
    }
    FramedSpared(w, s, ran.s);
    if Idle(w) { IdleCluster(w, s, ran.s); }
  }

  lemma FramedSpared(w: Outside, s: Scene, t: Scene)
    requires Framed(w, s, t)
    ensures forall o :: Spared(w, s, t, o)
  {
  }

  lemma RunTried(w: Outside, env: Env, start: Start, t: nat, ran: Ran)
    requires RunMeans(w, env, start, t, ran)
    ensures Attempts(env, ran.s.acts) && (ran.r.rc.Some? ==> !RaisedLast(ran.s.acts))
  {
  }

  lemma NothingStands(env: Env, w: Outside, s: Scene, t: Scene)
    requires Framed(w, s, t) && t.acts == []
    ensures Attempts(env, []) && t.ours == {} && [] + Removals(Reported([])) == [] && Distinct(Reported([]))
  {
  }

  lemma CleanedTried(w: Outside, env: Env, first: Scene, s: Scene)
    requires Framed(w, first, s) && Attempts(env, s.acts)
    ensures var t := Cleaned(w, Reported(s.acts), s);
            && Framed(w, first, t) && t.acts == s.acts + Removals(Reported(s.acts)) && Distinct(Reported(s.acts))
            && (forall o :: o in t.ours <==> Tried(o, Lost, false) in s.acts)
            && (t.ours != {} ==> RaisedLast(s.acts)) && OthersMoved(s.moves, t.moves)
  {
    hide Attempts, Spared, RaisedLast, Reported, Standing;
    StandingTried(env, s.acts);
    forall o | Tried(o, Lost, false) in s.acts
      ensures RaisedLast(s.acts) && o !in Reported(s.acts)
    {
      LostIsLast(env, s.acts, o);
    }
    ReportedPrefix(env, s.acts);
    AttemptsShort(env, s.acts);
    OrderDistinct();
    CleanedFramed(w, first, Reported(s.acts), s);
    CleanedActs(w, Reported(s.acts), s);
    var t := Cleaned(w, Reported(s.acts), s);
    if t.ours != {} {
      var o :| o in t.ours;
      assert Tried(o, Lost, false) in s.acts;
    }
  }

  // ---------------------------------------------------------------- the live tree

  /** Which states of the repository a run is based on: the start commit was HEAD at one, the ticket was
      admitted on another's live tree, the snapshot taken of a third's, and HEAD packed at a fourth. */
  ghost predicate Based(w: Outside, env: Env, start: Start, moves: seq<Move>) {
    && start.commitAt <= start.admittedAt <= start.snapshotAt <= start.packedAt < |moves|
    && (start.commit.Some? ==> start.commit.value == moves[start.commitAt].head)
    && Gated(env, moves[start.admittedAt].live).Some?
    && start.declared == Gated(env, moves[start.admittedAt].live).value.0.declared
    && start.before == Contract.ManifestOf(moves[start.snapshotAt].live, [])
    && start.transported == w.git.treeOf(moves[start.packedAt].head)
  }

  lemma OthersOnly(w: Outside, s: Scene)
    ensures var t := Elsewhere(w, s); OthersMoved(s.moves, t.moves) && t.acts == s.acts && t.ours == s.ours
  {
  }

  lemma StartBased(w: Outside, env: Env, s: Scene)
    requires Refusals(env, Live(Elsewhere(w, s))).None?
    ensures Based(w, env, StartOf(w, env, s), Packed(w, s).moves)
  {
    hide Gated, Contract.ManifestOf, Elsewhere;
    var admitted := Elsewhere(w, s);
    var snapshot := Elsewhere(w, admitted);
    OthersOnly(w, s);
    OthersOnly(w, admitted);
    OthersOnly(w, snapshot);
  }

  lemma BasedGrows(w: Outside, env: Env, start: Start, moves: seq<Move>, more: seq<Move>)
    requires Based(w, env, start, moves) && moves <= more
    ensures Based(w, env, start, more)
  {
    hide Gated, Contract.ManifestOf;
  }

  /** The run's own move of the live tree: from the transported tree to that tree with the patch, which
      is the tree the contract was recomputed on, under an unmoved HEAD. */
  ghost predicate LandsAt(git: Git, start: Start, patch: Bytes, earlier: seq<Move>, now: seq<Move>, r: Report, i: int) {
    && |earlier| <= i < |now| && i > 0 && now[i].byRun && (forall j | |earlier| <= j < |now| && j != i :: !now[j].byRun)
    && now[i - 1].live == start.transported && now[i].head == now[i - 1].head
    && git.apply(start.transported, patch) == Some(now[i].live) && r.scratch == Some(now[i].live)
  }

  /** The run moved the live tree once, as above, or left it to others. */
  ghost predicate LandsVerified(git: Git, start: Start, patch: Bytes, earlier: seq<Move>, now: seq<Move>, r: Report) {
    earlier <= now &&
    if !r.landed then OthersMoved(earlier, now) else exists i :: LandsAt(git, start, patch, earlier, now, r, i)
  }

  lemma HeadHeld(moves: seq<Move>, i: nat, j: nat, k: nat)
    requires Forward(moves) && i <= j <= k < |moves| && moves[i].head == moves[k].head
    ensures moves[j].head == moves[k].head
  {
  }

  /** A landed patch was not blank, so the verified tree is the transported tree with the patch. */
  lemma LandedScratch(git: Git, env: Env, start: Start, d: Delivery, published: Summary, r: Report)
    requires r.landed && d.summary.Some? && VerdictMeaning(git, env, start, d, r, published)
    ensures r.scratch.Some? && git.apply(start.transported, d.patch) == r.scratch
  {
    hide Observed, Blank, PatchGate.Gate, Contract.Intact, Contract.ManifestOf;
  }

  /** On a clean tree of the start commit, no commit came between: it is the transported tree. */
  lemma CleanIsTransported(w: Outside, env: Env, start: Start, t: Scene)
    requires Forward(t.moves) && Based(w, env, start, t.moves) && NoDrift(w, env, start.commit, t)
    ensures Live(t) == start.transported
  {
    hide Forward, Gated, Contract.ManifestOf;
    HeadHeld(t.moves, start.commitAt, start.packedAt, |t.moves| - 1);
  }

  lemma PackedFresh(w: Outside, s: Scene)
    requires Fresh(s)
    ensures Sound(w, Packed(w, s), Packed(w, s))
  {
    hide Elsewhere, Forward, Spared;
    PackedKeeps(w, s);
    BeginsSound(w, Packed(w, s));
  }

  lemma SameBase(w: Outside, env: Env, start: Start, a: Scene, b: Scene, patch: Bytes, t: Scene, u: Scene, ran: Ran)
    requires LandsOn(w, env, start, a, patch, t, ran) && LandsOn(w, env, start, b, patch, u, ran)
    ensures t.moves == u.moves && OthersMoved(a.moves, t.moves) && b.moves <= t.moves && Forward(t.moves)
    ensures if ran.r.landed then |ran.s.moves| == |t.moves| + 1 && ran.s.moves[..|t.moves|] == t.moves
            else ran.s.moves == t.moves
  {
    hide Framed, Forward;
    if ran.r.landed {
      assert ran.s.moves[..|t.moves|] == t.moves && ran.s.moves[..|u.moves|] == u.moves;
    }
  }

  lemma LandedMeans(w: Outside, env: Env, start: Start, t: nat, ran: Ran)
    requires RunMeans(w, env, start, t, ran) && ran.r.landed
    ensures Delivered(env) && Left(ran.ops).Some?
    ensures VerdictMeaning(w.git, env, start, env.delivery.value, ran.r, Left(ran.ops).value)
  {
    hide VerdictMeaning, MustRaise, FreshEvidence, CauseHolds;
  }

  lemma BodyLands(w: Outside, env: Env, s: Scene)
    requires Fresh(s) && GoesOn(w, env, s)
    ensures var ran, start := Body(w, env, s), StartOf(w, env, s);
            && LandsVerified(w.git, start, PatchOf(env), s.moves, ran.s.moves, ran.r)
            && Framed(w, s, ran.s) && Based(w, env, start, ran.s.moves)
  {
    hide Supervised, Framed, Forward, Elsewhere, StartOf, Gated, Contract.ManifestOf, VerdictMeaning, Refusals;
    var ran, start, packed := Body(w, env, s), StartOf(w, env, s), Packed(w, s);
    PackedKeeps(w, s);
    StartBased(w, env, s);
    BodyMeans(w, env, s);
    var t := SupervisedLands(w, env, start, s, packed);
    PackedFresh(w, s);
    var u := SupervisedLands(w, env, start, packed, packed);
    SameBase(w, env, start, s, packed, PatchOf(env), t, u, ran);
    LandsFramed(w, env, start, s, PatchOf(env), t, ran);
    BasedGrows(w, env, start, packed.moves, t.moves);
    if ran.r.landed {
      LandedMeans(w, env, start, Staging(s), ran);
      CleanIsTransported(w, env, start, t);
      LandedScratch(w.git, env, start, env.delivery.value, Left(ran.ops).value, ran.r);
      assert LandsAt(w.git, start, PatchOf(env), s.moves, ran.s.moves, ran.r, |t.moves|);
      BasedGrows(w, env, start, t.moves, ran.s.moves);
    }
  }

  /** Whatever others do: the live tree a run leaves is its own only by one verified landing, and what it
      was decided on are the admission, the snapshot and the packing at their states of the repository. */
  lemma LandedIsVerified(w: Outside, env: Env, before: EvidenceDir.Dir, s: Scene)
    requires Fresh(s)
    ensures var ran, start := Launch(w, env, before, s), StartOf(w, env, s);
            && LandsVerified(w.git, start, PatchOf(env), s.moves, ran.s.moves, ran.r)
            && (ran.r.end != TurnedAway ==> Based(w, env, start, ran.s.moves))
  {
    hide Supervised, Framed, Forward, Elsewhere, StartOf, Gated, Contract.ManifestOf, LandsAt, Launch, Based;
    hide Refusals, RunMeans;
    var start := StartOf(w, env, s);
    LaunchIs(w, env, before, s);
    PackedKeeps(w, s);
    if GoesOn(w, env, s) {
      var body := Body(w, env, s);
      BodyLands(w, env, s);
      BodyMeans(w, env, s);
      RunTried(w, env, start, Staging(s), body);
      CleanedTried(w, env, s, body.s);
      var now := Cleaned(w, Reported(body.s.acts), body.s).moves;
      BasedGrows(w, env, start, body.s.moves, now);
      LandingStays(w.git, start, PatchOf(env), s.moves, body.s.moves, now, body.r);
    }
  }

  lemma LandingStays(git: Git, start: Start, patch: Bytes, earlier: seq<Move>, mid: seq<Move>, now: seq<Move>,
                     r: Report)
    requires LandsVerified(git, start, patch, earlier, mid, r) && OthersMoved(mid, now)
    ensures LandsVerified(git, start, patch, earlier, now, r)
  {
    if r.landed {
      var i :| LandsAt(git, start, patch, earlier, mid, r, i);
      assert now[i] == mid[i] && now[i - 1] == mid[i - 1];
      assert LandsAt(git, start, patch, earlier, now, r, i);
    }
  }

  // ---------------------------------------------------------------- when a patch lands

  /** The outside when a payload is read, and when the verdict over an intact contract is issued. */
  ghost function PayloadScene(w: Outside, env: Env, s: Scene): Scene {
    Elsewhere(w, AllMade(w, env, WORKER, Packed(w, s)).s)
  }

  ghost function VerdictScene(w: Outside, env: Env, start: Start, s: Scene): Scene {
    Rechecked(w, env, Chained(w, env, start, PatchOf(env), StagedAs(s, PatchOf(env))).s).s
  }

  /** A delivered patch that its worker and both of the host's checks pass. */
  ghost predicate Approved(w: Outside, env: Env, start: Start, t: nat, acts: seq<Act>) {
    && Judgeable(env) && env.delivery.value.summary.value.rc == 0 && !Blank(PatchOf(env))
    && ContractHeld(w, env, start, t) && AllReported(env, acts, 6) && !env.recheck.raises && Green(env.recheck)
  }

  /** The staged file holds the patch again, and the live tree is the start commit's. */
  ghost predicate Ready(w: Outside, env: Env, start: Start, u: Scene) {
    && u.file == Some(PatchOf(env)) && env.gitAnswers && env.applyRuns
    && start.commit == Some(Head(u)) && Live(u) == w.git.treeOf(Head(u))
  }

  lemma JudgedLandsWhen(w: Outside, env: Env, start: Start, s: Scene)
    requires Arrived(env, s.acts) && Delivered(env)
    ensures var u := VerdictScene(w, env, start, s);
            Judged(w, env, start, env.delivery.value, s).r.landed <==>
            && Approved(w, env, start, s.clock, u.acts) && Ready(w, env, start, u)
            && w.git.apply(Live(u), PatchOf(env)).Some?
  {
    hide Attempts, AllReported, Chained, Rechecked, Acceptable, ScratchOf, Observed, OctalRaises, Blank;
    hide CameOut, After, RaisedLast, RefusedLast, PublishOps, Green, Uploads;
    var d := env.delivery.value;
    if !Conflicting(d) {
      var staged := StagedAs(s, d.patch);
      ChainedMeans(w, env, start, d.patch, staged);
      var chain := Chained(w, env, start, d.patch, staged);
      if chain.out.Value? && chain.out.v.Holds? {
        RecheckedMeans(w, env, chain.s);
        ObservedExactly(env.recheck);
      }
    }
  }

  /** Whatever others do, a run lands its patch exactly if it goes on, a payload is delivered, worker and
      host approve its patch, and at the end the staged file and the live tree are what they were. Git
      then never refuses it: it has applied to the scratch tree. */
  lemma LandsExactly(w: Outside, env: Env, before: EvidenceDir.Dir, s: Scene)
    requires Fresh(s)
    ensures var start, read := StartOf(w, env, s), PayloadScene(w, env, s);
            var u := VerdictScene(w, env, start, read);
            Launch(w, env, before, s).r.landed <==>
            && GoesOn(w, env, s) && Arrived(env, read.acts)
            && Approved(w, env, start, Staging(s), u.acts) && Ready(w, env, start, u)
  {
    hide Launch, StartOf, Elsewhere, Refusals, AllMade, Judged, Approved, Ready, VerdictScene, Fresh, AbortOps, Cleaned;
    LaunchIs(w, env, before, s);
    if GoesOn(w, env, s) {
      var start, packed := StartOf(w, env, s), Packed(w, s);
      PayloadMeans(w, env, s);
      if Arrived(env, PayloadScene(w, env, s).acts) && Delivered(env) {
        JudgedLandsWhen(w, env, start, PayloadScene(w, env, s));
        ReadyApplies(w, env, s);
      }
      ApprovedDelivered(w, env, start, Staging(s), VerdictScene(w, env, start, PayloadScene(w, env, s)).acts);
    }
  }

  lemma ApprovedDelivered(w: Outside, env: Env, start: Start, t: nat, acts: seq<Act>)
    ensures Approved(w, env, start, t, acts) ==> Delivered(env)
  {
  }

  lemma PayloadMeans(w: Outside, env: Env, s: Scene)
    requires Fresh(s)
    ensures var read := PayloadScene(w, env, s); var worker := AllMade(w, env, WORKER, Packed(w, s));
            && (worker.out == Value(true) <==> AllReported(env, read.acts, 4))
            && (worker.out == Value(true) ==> read.clock == Staging(s))
            && Sound(w, s, read) && Sound(w, Packed(w, s), read)
  {
    hide Elsewhere, AllMade, Attempts, AllReported, Sound;
    var packed := Packed(w, s);
    PackedKeeps(w, s);
    PackedFresh(w, s);
    OthersKeep(w, s);
    OthersKeep(w, Elsewhere(w, s));
    OthersKeep(w, Elsewhere(w, Elsewhere(w, s)));
    NothingTried(env);
    assert ORDER[0..4] == WORKER;
    AllMadeAttempts(w, env, 0, packed);
    AllMadeSound(w, env, WORKER, s, packed);
    AllMadeSound(w, env, WORKER, packed, packed);
    var worker := AllMade(w, env, WORKER, packed);
    OthersKeep(w, worker.s);
    ElsewhereSound(w, s, worker.s);
    ElsewhereSound(w, packed, worker.s);
  }

  /** On a tree of the start commit git applies what it has applied to the scratch tree. */
  lemma ReadyApplies(w: Outside, env: Env, s: Scene)
    requires Fresh(s) && GoesOn(w, env, s)
    ensures var start, read := StartOf(w, env, s), PayloadScene(w, env, s);
            var u := VerdictScene(w, env, start, read);
            Approved(w, env, start, Staging(s), u.acts) && Ready(w, env, start, u) ==>
              w.git.apply(Live(u), PatchOf(env)).Some?
  {
    hide Sound, Elsewhere, StartOf, AllMade, Chained, Rechecked, Based, ContractHeld, Green, Blank;
    hide PayloadScene, AllReported, Judgeable, Refusals, Acceptable, Forward;
    var start, packed, read := StartOf(w, env, s), Packed(w, s), PayloadScene(w, env, s);
    var patch := PatchOf(env);
    PayloadMeans(w, env, s);
    StageSound(w, s, read, patch);
    StageSound(w, packed, read, patch);
    var chain := Chained(w, env, start, patch, StagedAs(read, patch));
    ChainedSound(w, env, start, patch, s, StagedAs(read, patch));
    ChainedSound(w, env, start, patch, packed, StagedAs(read, patch));
    var u := Rechecked(w, env, chain.s).s;
    RecheckedSound(w, env, s, chain.s);
    RecheckedSound(w, env, packed, chain.s);
    StartBased(w, env, s);
    SoundGrows(w, env, start, packed, u);
    if Ready(w, env, start, u) { CleanIsTransported(w, env, start, u); }
    if Approved(w, env, start, Staging(s), u.acts) { HeldApplies(w, env, start, Staging(s)); }
  }

  lemma SoundGrows(w: Outside, env: Env, start: Start, packed: Scene, u: Scene)
    requires Sound(w, packed, u) && Based(w, env, start, packed.moves)
    ensures Forward(u.moves) && Based(w, env, start, u.moves)
  {
    hide Based, Framed, Forward;
    BasedGrows(w, env, start, packed.moves, u.moves);
  }

  lemma HeldApplies(w: Outside, env: Env, start: Start, t: nat)
    requires ContractHeld(w, env, start, t) && !Blank(PatchOf(env))
    ensures w.git.apply(start.transported, PatchOf(env)).Some?
  {
    hide Blank, After, PatchGate.Gate, Contract.Intact, Contract.ManifestOf;
  }

  // ---------------------------------------------------------------- the evidence

  /** The summary that stands after a run with the marker written first and removed last. */
  lemma SummaryLeft(before: EvidenceDir.Dir, body: seq<FileOp>)
    requires Writes(body)
    ensures Replay(before, OPENING + body + [RemoveMarker]).summary
            == if Left(body).Some? then WholeSummary(Left(body).value) else before.summary
  {
    ReplaySnoc(before, OPENING + body, RemoveMarker);
    if body == [] {
      assert OPENING + body == [] + [TruncateMarker] + [WriteMarker];
      ReplaySnoc(before, [], TruncateMarker);
      ReplaySnoc(before, [] + [TruncateMarker], WriteMarker);
    } else {
      var n := |body| - 1;
      assert OPENING + body == (OPENING + body[..n]) + [body[n]];
      ReplaySnoc(before, OPENING + body[..n], body[n]);
    }
  }

  /** What a launch leaves in the evidence directory. */
  ghost predicate EvidenceMeaning(w: Outside, env: Env, before: EvidenceDir.Dir, s: Scene, ran: Ran) {
    var summary := Replay(before, ran.ops).summary;
    match ran.r.end
    case TurnedAway =>
      var early := Refusals(env, Live(Elsewhere(w, s))).Some?;
      && !GoesOn(w, env, s) && ran.r.rc.Some? && Classify(Refusal(ran.r.rc.value)) != Passed
      && Replay(before, ran.ops)
         == EvidenceDir.Dir(if !early || (before.marker == FullMarker && env.oldPidAlive) then FullMarker else NoMarker,
                            if before.summary != NoSummary then before.summary
                            else WholeSummary(Summary(ran.r.rc.value, FAIL, Some(EarlyAbort))))
      && if early then ran.ops == AbortOps(before, env.oldPidAlive, Refusal(ran.r.rc.value))
         else Unfinished(ran.ops)
    case Verdict =>
      && Finished(ran.ops) && Delivered(env) && summary.WholeSummary?
      && VerdictMeaning(w.git, env, StartOf(w, env, s), env.delivery.value, ran.r, summary.summary)
      && ran.r.rc == Some(summary.summary.rc)
    case Exception =>
      && ran.ops == OPENING + [RemoveMarker] && Finished(ran.ops) && summary == before.summary && ran.r.rc.None?
    case NoPayload =>
      && ran.ops == OPENING + [RemoveMarker] && Finished(ran.ops) && summary == before.summary
      && ran.r.rc == Some(17)
    case _ => Finished(ran.ops) && summary == WholeSummary(Summary(16, FAIL, Some(EnvFail))) && ran.r.rc == Some(16)
  }

  /** Every launch: a run that goes on writes its marker first, its summaries, and removes the marker
      last; the summary that stands is a verdict that means what it says and carries the returned code,
      an environment failure, or, where none was written, what stood there before. */
  lemma EvidenceSound(w: Outside, env: Env, before: EvidenceDir.Dir, s: Scene)
    requires s.acts == []
    ensures EvidenceMeaning(w, env, before, s, Launch(w, env, before, s))
  {
    hide Supervised, Elsewhere, StartOf, Launch, AbortOps, VerdictMeaning, MustRaise, CauseHolds, FreshEvidence;
    hide Attempts, Replay, Refusals;
    LaunchIs(w, env, before, s);
    OthersKeep(w, s);
    OthersKeep(w, Elsewhere(w, s));
    OthersKeep(w, Elsewhere(w, Elsewhere(w, s)));
    if GoesOn(w, env, s) {
      var body := Body(w, env, s);
      BodyMeans(w, env, s);
      SummaryLeft(before, body.ops);
      if body.r.end == Verdict { VerdictCode(w, env, StartOf(w, env, s), Staging(s), body); }
    } else {
      OpenedAbort(before);
      AbortOpened(before, Refusal(ENV_FAIL));
      AbortLeaves(before, env.oldPidAlive, Refusal(Launch(w, env, before, s).r.rc.value));
    }
  }

  lemma VerdictCode(w: Outside, env: Env, start: Start, t: nat, ran: Ran)
    requires RunMeans(w, env, start, t, ran) && ran.r.end == Verdict
    ensures ran.r.rc == Some(Left(ran.ops).value.rc)
  {
    hide Acceptable, Observed, Blank, FreshEvidence, MustRaise;
  }

  lemma OpenedAbort(before: EvidenceDir.Dir)
    ensures Unfinished(OPENING + AbortOps(EvidenceDir.Dir(FullMarker, before.summary), true, Refusal(ENV_FAIL)))
  {
    var body := AbortOps(EvidenceDir.Dir(FullMarker, before.summary), true, Refusal(ENV_FAIL));
    assert body == if before.summary == NoSummary then Puts(Refusal(ENV_FAIL)) else [];
    assert Writes(body);
  }

  /** When a run raises: it goes on, and a create timed out, an answer raises, or others remove the staged
      patch right after its identity check; and each cause stands for what it names. */
  lemma RaisesExactly(w: Outside, env: Env, before: EvidenceDir.Dir, s: Scene)
    requires s.acts == []
    ensures var ran, start, tried := Launch(w, env, before, s), StartOf(w, env, s), Body(w, env, s).s.acts;
            && (ran.r.end == Exception <==> GoesOn(w, env, s) && MustRaise(w, env, start, Staging(s), tried))
            && (ran.r.end == Exception ==>
                  && ran.r.rc.None? && ran.r.cause.Some?
                  && CauseHolds(w, env, start, Staging(s), tried, ran.r.cause.value))
  {
    hide Supervised, Elsewhere, StartOf, Launch, AbortOps, VerdictMeaning, MustRaise, CauseHolds, FreshEvidence;
    hide Attempts, Writes;
    LaunchIs(w, env, before, s);
    if GoesOn(w, env, s) {
      BodyMeans(w, env, s);
    }
  }

  // ---------------------------------------------------------------- runs that are turned away

  /** The ticket can be read, is admitted on this tree without contradiction, and declares a path or says
      that it resets nothing. */
  ghost predicate GoodTicket(env: Env, live: Tree) {
    && env.ticketText.Some? && TicketHeader.ReadHeader(env.ticketText.value).Some?
    && var h := TicketHeader.ReadHeader(env.ticketText.value).value;
       && Contract.Admitted(TicketGate.TicketOf(h), live, []) && !(h.acceptNone && h.accepts != [])
       && (h.entries != [] || h.resetNone)
  }

  /** A run is turned away exactly if kubectl, ticket, preflight, image, packing or size fail it: with code 13
      for the ticket alone, judged once kubectl is there, and with code 16 for the rest. */
  lemma TurnedAwayExactly(w: Outside, env: Env, before: EvidenceDir.Dir, s: Scene)
    requires s.acts == []
    ensures var r, good := Launch(w, env, before, s).r, GoodTicket(env, Live(Elsewhere(w, s)));
            && (r.end == TurnedAway <==>
                  !(env.kubectl && good && env.preflight && env.image && env.packs && env.fits))
            && (r.end == TurnedAway ==> r.rc == Some(if env.kubectl && !good then 13 else 16))
  {
    hide Supervised, Elsewhere, StartOf, Launch, AbortOps, RunMeans, Cleaned, Gated;
    LaunchIs(w, env, before, s);
    GatedGood(env, Live(Elsewhere(w, s)));
    if GoesOn(w, env, s) {
      BodyMeans(w, env, s);
      NotTurnedAway(w, env, StartOf(w, env, s), Staging(s), Body(w, env, s));
    }
  }

  lemma NotTurnedAway(w: Outside, env: Env, start: Start, t: nat, ran: Ran)
    requires RunMeans(w, env, start, t, ran)
    ensures ran.r.end != TurnedAway
  {
    hide VerdictMeaning, MustRaise, CauseHolds, FreshEvidence, Attempts, Writes;
  }

  lemma GatedGood(env: Env, live: Tree)
    ensures GoodTicket(env, live) <==>
            Gated(env, live).Some? && (Gated(env, live).value.0.declared != [] || Gated(env, live).value.1)
  {
    hide TicketHeader.ReadHeader, Contract.Admitted;
  }

  /** A patch without content: its bytes decode to blanks only. */
  lemma BlankExactly(patch: Bytes)
    ensures Blank(patch) <==> Utf8.Decode(patch).Some? && forall c | c in Utf8.Decode(patch).value :: IsSpace(c)
  {
    hide Utf8.Decode, IsSpace, Strip;
    if Utf8.Decode(patch).Some? {
      var s := Utf8.Decode(patch).value;
      var lo, hi := StripSpan(s);
      if lo == hi {
        assert forall i | 0 <= i < |s| :: IsSpace(s[i]);
      } else {
        assert s[lo] in s;
      }
    }
  }

  // ---------------------------------------------------------------- the fresh check

  /** From occasion `t` on others leave the staged patch alone, or whoever changes it last before the
      upload puts it back. */
  predicate LeftAlone(w: Outside, t: nat, patch: Bytes) {
    var first, last := w.deeds(t).file, w.deeds(t + 1).file;
    if last.Some? then last.value == Some(patch) else first.None? || first.value == Some(patch)
  }

  /** Over an intact contract the fresh check is an infrastructure failure, published as code 16, exactly if
      the run did not get to create its Job or the answers about it are unusable; otherwise it gives
      the Job's code, which stands on objects this run created, and a code that is not 0 is published.
      The Job was given the payload's patch exactly if others leave the staged
      file alone between its identity check and the upload. */
  ghost predicate FreshMeans(w: Outside, env: Env, s: Scene, ran: Ran) {
    && (ran.r.recheck.Some? ==>
          && Tried(PatchMap, Done, false) in ran.s.acts && Tried(FreshJob, Done, false) in ran.s.acts
          && ran.r.upload.Some? && (ran.r.recheck == Some(0) <==> Green(env.recheck)))
    && (ran.r.end == Verdict && !ran.r.violated ==>
          && (ran.r.infra <==> Tried(FreshJob, Done, false) !in ran.s.acts || Unusable(env.recheck))
          && (ran.r.infra ==> ran.r.rc == Some(16))
          && (!ran.r.infra ==> ran.r.recheck == Some(if env.recheck.completed then 0 else env.recheck.exitRc))
          && (!ran.r.infra && ran.r.recheck != Some(0) ==> ran.r.rc == ran.r.recheck))
    && (ran.r.upload.Some? ==> (ran.r.upload == Some(PatchOf(env)) <==> LeftAlone(w, Staging(s) + 2, PatchOf(env))))
  }

  lemma FreshExactly(w: Outside, env: Env, before: EvidenceDir.Dir, s: Scene)
    requires s.acts == []
    ensures FreshMeans(w, env, s, Launch(w, env, before, s))
  {
    hide StartOf, Launch, AbortOps, Cleaned, AllReported, LeftAlone, After, Body, Elsewhere, Green, Unusable;
    hide RunMeans, GoesOn, Reported, Removals, Packed;
    LaunchIs(w, env, before, s);
    if GoesOn(w, env, s) {
      var body := Body(w, env, s);
      BodyMeans(w, env, s);
      BodyFresh(w, env, StartOf(w, env, s), Staging(s), body);
      CleanedActs(w, Reported(body.s.acts), body.s);
      NothingTriedIn(Reported(body.s.acts));
      AloneExactly(w, Staging(s) + 2, PatchOf(env));
    }
  }

  lemma BodyFresh(w: Outside, env: Env, start: Start, t: nat, ran: Ran)
    requires RunMeans(w, env, start, t, ran)
    ensures ran.r.recheck.Some? ==>
              && Tried(PatchMap, Done, false) in ran.s.acts && Tried(FreshJob, Done, false) in ran.s.acts
              && ran.r.upload.Some? && (ran.r.recheck == Some(0) <==> Green(env.recheck))
    ensures ran.r.end == Verdict && !ran.r.violated ==>
              && (ran.r.infra <==> Tried(FreshJob, Done, false) !in ran.s.acts || Unusable(env.recheck))
              && (ran.r.infra ==> ran.r.rc == Some(16))
              && (!ran.r.infra ==> ran.r.recheck == Some(if env.recheck.completed then 0 else env.recheck.exitRc))
              && (!ran.r.infra && ran.r.recheck != Some(0) ==> ran.r.rc == ran.r.recheck)
    ensures ran.r.upload.Some? ==> ran.r.upload == After(w, t + 3, After(w, t + 2, Some(PatchOf(env))))
  {
    hide MustRaise, CauseHolds, Attempts, Writes, ContractHeld, Observed, Green, AllReported, After;
    hide Acceptable, ScratchOf, Uploads, Unusable, Blank;
    if AllReported(env, ran.s.acts, 6) {
      SixReported(env, ran.s.acts);
    } else {
      NoFreshJob(env, ran.s.acts);
    }
  }

  lemma NothingTriedIn(created: seq<Obj>)
    ensures forall a | a in Removals(created) :: a.Removed?
  {
  }

  lemma NoFreshJob(env: Env, acts: seq<Act>)
    requires Attempts(env, acts) && !AllReported(env, acts, 6)
    ensures Tried(FreshJob, Done, false) !in acts
  {
    forall i | 0 <= i < |acts|
      ensures acts[i] != Tried(FreshJob, Done, false)
    {
      if acts[i].Tried? && acts[i].obj == FreshJob { assert i == 5; }
    }
  }

  lemma AloneExactly(w: Outside, t: nat, patch: Bytes)
    ensures After(w, t + 1, After(w, t, Some(patch))) == Some(patch) <==> LeftAlone(w, t, patch)
  {
  }

  lemma SixReported(env: Env, acts: seq<Act>)
    requires AllReported(env, acts, 6)
    ensures Tried(PatchMap, Done, false) in acts && Tried(FreshJob, Done, false) in acts
  {
    assert CameOut(acts[4], Created) && CameOut(acts[5], Created);
    assert acts[4] == Tried(PatchMap, Done, false) && acts[5] == Tried(FreshJob, Done, false);
  }

  /** A landed patch was published as a pass exactly if the worker's verifier passed, and not for doing
      nothing. */
  lemma LandedPassExactly(git: Git, env: Env, start: Start, d: Delivery, r: Report, published: Summary)
    requires r.landed && d.summary.Some? && VerdictMeaning(git, env, start, d, r, published)
    ensures Classify(published) == Passed <==>
            d.summary.value.verifier == PASS && d.summary.value.probe != Some(NoOpPass)
  {
    hide Acceptable, ScratchOf, Observed, Blank;
  }
}
