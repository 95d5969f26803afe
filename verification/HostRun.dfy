/** One supervised run on the host, step by step (launcher/k8s.py:121-213, 277-348, 401-944;
    launcher/abort.py:44-86). Every method leaves the outside and the evidence as `HostSpec` says. */
module HostRun {
  import opened Text
  import opened FileTree
  import opened Verdicts
  import opened EvidenceDir
  import opened World
  import opened HostSpec
  import opened HostLaws
  import Utf8
  import PatchGate
  import Contract
  import TicketHeader
  import TicketGate

  lemma ReportedSnoc(acts: seq<Act>, a: Act)
    ensures Reported(acts + [a])
            == Reported(acts) + if a.Tried? && CreateOutcome(a.answer, a.taken) == Created then [a.obj] else []
  {
    assert (acts + [a])[..|acts|] == acts;
  }

  /** One create; a reported one is put on the cleanup's list. */
  method CreateOwned(w: World, env: Env, o: Obj, created: seq<Obj>) returns (r: Stage<bool>, owned: seq<Obj>)
    requires created == Reported(w.Now().acts)
    modifies w
    ensures Step(r, w.Now()) == Made(w.out, env, o, old(w.Now())) && owned == Reported(w.Now().acts)
  {
    hide Elsewhere;
    w.OthersAct();
    ghost var acts := w.Now().acts;
    assert acts == old(w.Now()).acts by { ActsKept(w.out, old(w.Now())); }
    var outcome := w.Create(o, env.answer(o));
    ReportedSnoc(acts, w.Now().acts[|acts|]);
    match outcome {
      case Created => return Value(true), created + [o];
      case Refused => return Value(false), created;
      case Raised => return Died(CreateTimedOut(o)), created;
    }
  }

  lemma ActsKept(w: Outside, s: Scene)
    ensures Elsewhere(w, s).acts == s.acts
  {
  }

  /** `_run_worker`'s creates, in order; the first that fails ends it. */
  method RunWorker(w: World, env: Env) returns (r: Stage<bool>, created: seq<Obj>)
    requires w.Now().acts == []
    modifies w
    ensures Step(r, w.Now()) == AllMade(w.out, env, WORKER, old(w.Now())) && created == Reported(w.Now().acts)
    ensures Attempts(env, w.Now().acts) && |w.Now().acts| <= 4 && (r.Died? <==> RaisedLast(w.Now().acts))
    ensures r == Value(true) <==> AllReported(env, w.Now().acts, 4)
  {
    hide Made, Reported, AllMade, Attempts, AllReported, RaisedLast;
    ghost var s := w.Now();
    FourMade(w.out, env, s);
    FourAttempted(w.out, env, s);
    NothingReported();
    r, created := CreateOwned(w, env, TicketMap, []);
    if r != Value(true) { return; }
    r, created := CreateOwned(w, env, TreeMap, created);
    if r != Value(true) { return; }
    r, created := CreateOwned(w, env, RunnerMap, created);
    if r != Value(true) { return; }
    r, created := CreateOwned(w, env, WorkerJob, created);
  }

  lemma FourAttempted(w: Outside, env: Env, s: Scene)
    requires s.acts == []
    ensures var step := AllMade(w, env, WORKER, s); var acts := step.s.acts;
            && Attempts(env, acts) && |acts| <= 4 && (step.out.Died? <==> RaisedLast(acts))
            && (step.out == Value(true) <==> AllReported(env, acts, 4))
  {
    hide AllMade, Attempts, AllReported, RaisedLast;
    NothingTried(env);
    assert ORDER[0..4] == WORKER;
    AllMadeAttempts(w, env, 0, s);
  }

  lemma NothingReported()
    ensures Reported([]) == []
  {
  }

  lemma FourMade(w: Outside, env: Env, s: Scene)
    ensures var a := Made(w, env, TicketMap, s); var b := Made(w, env, TreeMap, a.s);
            var c := Made(w, env, RunnerMap, b.s); var d := Made(w, env, WorkerJob, c.s);
            AllMade(w, env, WORKER, s) == if a.out != Value(true) then a else if b.out != Value(true) then b
                                          else if c.out != Value(true) then c else d
  {
    hide Made;
    assert WORKER[1..] == [TreeMap, RunnerMap, WorkerJob] && WORKER[1..][1..] == [RunnerMap, WorkerJob];
    assert [RunnerMap, WorkerJob][1..] == [WorkerJob] && [WorkerJob][1..] == [];
    var a := Made(w, env, TicketMap, s);
    var b := Made(w, env, TreeMap, a.s);
    var c := Made(w, env, RunnerMap, b.s);
    var d := Made(w, env, WorkerJob, c.s);
    assert AllMade(w, env, [WorkerJob], c.s) == d by { assert AllMade(w, env, [], d.s) == Step(Value(true), d.s); }
    assert AllMade(w, env, [RunnerMap, WorkerJob], b.s) == if c.out == Value(true) then d else c;
  }

  /** The `finally` cleanup: every object on the list is deleted once, in order, and no other. */
  method Cleanup(w: World, created: seq<Obj>)
    modifies w
    ensures w.Now() == Cleaned(w.out, created, old(w.Now()))
    ensures w.Now().acts == old(w.Now()).acts + Removals(created) && OthersMoved(old(w.Now()).moves, w.Now().moves)
    ensures w.Now().ours == old(w.Now()).ours - (set o | o in created)
  {
    hide Elsewhere;
    CleanedActs(w.out, created, w.Now());
    assert created[0..] == created;
    for k := 0 to |created|
      invariant Cleaned(w.out, created[k..], w.Now()) == Cleaned(w.out, created, old(w.Now()))
    {
      assert created[k..][0] == created[k] && created[k..][1..] == created[k + 1..];
      w.OthersAct();
      w.Delete(created[k]);
    }
  }

  /** `_fresh_job`. */
  method FreshCheck(w: World, env: Env, created: seq<Obj>) returns (r: Stage<FreshRun>, owned: seq<Obj>)
    requires created == Reported(w.Now().acts)
    modifies w
    ensures Step(r, w.Now()) == Rechecked(w.out, env, old(w.Now())) && owned == Reported(w.Now().acts)
    ensures AllReported(env, old(w.Now()).acts, 4) ==> RecheckMeans(w.out, env, old(w.Now()), Step(r, w.Now()))
  {
    hide Elsewhere, Observed, Made, Reported, Makes, AllReported, RecheckMeans;
    if AllReported(env, w.Now().acts, 4) { RecheckedMeans(w.out, env, w.Now()); }
    ActsKept(w.out, w.Now());
    w.OthersAct();
    owned := created;
    var measured := w.file;
    if measured.None? {
      return Died(StagedGone), owned;
    }
    if |measured.value| > TRANSPORT_MAX {
      return Value(NOT_RUN), owned;
    }
    ActsKept(w.out, w.Now());
    w.OthersAct();
    var content := w.file;
    if content.None? {
      return Value(NOT_RUN), owned;
    }
    ghost var acts := w.Now().acts;
    var outcome := w.Create(PatchMap, env.answer(PatchMap));
    ReportedSnoc(acts, w.Now().acts[|acts|]);
    match outcome {
      case Raised => return Died(CreateTimedOut(PatchMap)), owned;
      case Refused => return Value(NOT_RUN), owned;
      case Created => owned := owned + [PatchMap];
    }
    var made;
    made, owned := CreateOwned(w, env, FreshJob, owned);
    if made.Died? {
      return Died(made.cause), owned;
    }
    if !made.v {
      return Value(NOT_RUN), owned;
    }
    ActsKept(w.out, w.Now());
    w.OthersAct();
    r := if env.recheck.raises then Died(WatchTimedOut) else Value(FreshRun(Observed(env.recheck), content));
  }

  /** `_contract_chain`. */
  method ContractChain(w: World, env: Env, start: Start, patch: Bytes) returns (r: Stage<Chain>)
    modifies w
    ensures Step(r, w.Now()) == Chained(w.out, env, start, patch, old(w.Now()))
    ensures ChainMeans(w.out, env, start, patch, old(w.Now()), Step(r, w.Now()))
  {
    hide PatchGate.Gate, Contract.Intact, Contract.ManifestOf, ScratchTree, Elsewhere, ChainMeans;
    ChainedMeans(w.out, env, start, patch, w.Now());
    var text := Utf8.Decode(patch);
    if text.None? {
      return Value(Violated);
    }
    w.OthersAct();
    var gate := PatchGate.PatchGate(text.value, env.numstat);
    if gate.Raises? {
      return Died(OctalTooBig);
    }
    if gate.violations != [] {
      return Value(Violated);
    }
    w.OthersAct();
    if w.file != Some(patch) || !env.scratchMade {
      return Value(Violated);
    }
    var scratch := ScratchTree(w.out.git, start.transported, text.value);
    if scratch.None? {
      return Value(Violated);
    }
    var after := Contract.ManifestOf(scratch.value, []);
    var report := Contract.CompareManifests(start.before, after, start.declared);
    Contract.EmptyReport(start.before, after, start.declared);
    r := Value(if report == {} then Holds(scratch.value) else Violated);
  }

  /** `_apply_final_pass`. */
  method ApplyFinalPass(w: World, e: Evidence, env: Env, start: Option<Commit>, patch: Bytes) returns (landed: bool)
    modifies w`moves, e`ops
    ensures var applied := LiveApply(w.out, env, start, patch, old(w.Now()));
            && landed == applied.Some? && w.Now() == (if landed then applied.value else old(w.Now()))
            && e.ops == if landed then old(e.ops) else old(e.ops) + Puts(ENV_FAIL_SUMMARY)
    ensures landed <==> old(w.Now()).file == Some(patch) && NoDrift(w.out, env, start, old(w.Now())) && env.applyRuns
                        && w.out.git.apply(Live(old(w.Now())), patch).Some?
    ensures Head(w.Now()) == Head(old(w.Now()))
    ensures Some(Live(w.Now()))
            == if landed then w.out.git.apply(Live(old(w.Now())), patch) else Some(Live(old(w.Now())))
  {
    if w.file != Some(patch) || !NoDrift(w.out, env, start, w.Now()) {
      e.PutSummary(ENV_FAIL_SUMMARY);
      return false;
    }
    landed := w.GitApply(env.applyRuns);
    if !landed {
      e.PutSummary(ENV_FAIL_SUMMARY);
    }
  }

  /** What was published means what it says, and the report carries its code. */
  ghost predicate IssueMeans(git: Git, env: Env, start: Start, d: Delivery, r: Report, ops: seq<FileOp>) {
    && Writes(ops) && Left(ops).Some? && d.summary.Some?
    && VerdictMeaning(git, env, start, d, r, Left(ops).value)
  }

  lemma VerdictIssued(w: Outside, env: Env, start: Start, d: Delivery, r: Report, s: Scene)
    requires d.summary.Some? && Premises(w.git, env, start, d, r)
    ensures var ran := Issued(w, env, start, d, r, s); IssueMeans(w.git, env, start, d, ran.r, ran.ops)
  {
    hide Premises, Issued, VerdictMeaning, Writes;
    IssuedMeans(w, env, start, d, r, s);
  }

  /** `_publish_evidence`, the alignment of the exit code and the live apply. */
  method IssueVerdict(w: World, e: Evidence, env: Env, start: Start, d: Delivery, r: Report) returns (done: Report)
    requires d.summary.Some? && !r.landed
    modifies w`moves, e`ops
    ensures var ran := Issued(w.out, env, start, d, r, old(w.Now()));
            done == ran.r && w.Now() == ran.s && e.ops == old(e.ops) + ran.ops
    ensures Premises(w.out.git, env, start, d, r) ==> IssueMeans(w.out.git, env, start, d, done, e.ops[|old(e.ops)|..])
  {
    hide LiveApply, Blank, PublishOps, Premises, IssueMeans;
    if Premises(w.out.git, env, start, d, r) { VerdictIssued(w.out, env, start, d, r, w.Now()); }
    var worker := d.summary.value;
    e.Publish(worker, worker.rc, r.violated, r.recheck);
    var rc := worker.rc;
    if r.infra {
      rc := ENV_FAIL;
      e.PutSummary(ENV_FAIL_SUMMARY);
    } else if r.recheck.Some? && r.recheck.value != 0 {
      rc := r.recheck.value;
    } else if r.violated && rc == 0 {
      rc := DEFECT;
    }
    var landed := false;
    if rc == 0 && !r.violated && (r.recheck.None? || r.recheck.value == 0) && !Blank(d.patch) {
      landed := ApplyFinalPass(w, e, env, start.commit, d.patch);
      if !landed {
        rc := ENV_FAIL;
      }
    }
    done := r.(rc := Some(rc), landed := landed);
  }

  /** A run has come to the judgement of this delivery. */
  ghost predicate Reaches(env: Env, acts: seq<Act>, d: Delivery) {
    Arrived(env, acts) && env.delivery == Some(d)
  }

  lemma DeliveryMeans(w: Outside, env: Env, start: Start, d: Delivery, s: Scene)
    requires d.summary.Some? && Reaches(env, s.acts, d)
    ensures RunMeans(w, env, start, s.clock, Judged(w, env, start, d, s))
  {
    hide Judged, RunMeans, AllReported;
    JudgedMeans(w, env, start, s);
  }

  /** From a delivered payload on. */
  method JudgeDelivery(w: World, e: Evidence, env: Env, start: Start, d: Delivery, created: seq<Obj>)
    returns (r: Report, owned: seq<Obj>)
    requires d.summary.Some? && created == Reported(w.Now().acts)
    modifies w, e`ops
    ensures var ran := Judged(w.out, env, start, d, old(w.Now()));
            && r == ran.r && w.Now() == ran.s && e.ops == old(e.ops) + ran.ops && owned == Reported(ran.s.acts)
    ensures Reaches(env, old(w.Now()).acts, d) ==>
              RunMeans(w.out, env, start, old(w.clock), Ran(r, w.Now(), e.ops[|old(e.ops)|..]))
  {
    hide Chained, Rechecked, Issued, Elsewhere, Reaches, RunMeans, ChainMeans, RecheckMeans, AllReported;
    hide IssueMeans, Premises;
    if Reaches(env, w.Now().acts, d) { DeliveryMeans(w.out, env, start, d, w.Now()); }
    owned := created;
    w.StagePatch(d.patch);
    if d.internalRc.Some? && d.internalRc.value != d.summary.value.rc {
      e.PutSummary(ENV_FAIL_SUMMARY);
      return Ended(Conflict, ENV_FAIL), owned;
    }
    ghost var staged := w.Now();
    ChainActs(w.out, env, start, d.patch, staged);
    var chain := ContractChain(w, env, start, d.patch);
    if chain.Died? {
      return Crashed(chain.cause), owned;
    }
    var report := OVER_VIOLATED;
    if chain.v.Holds? {
      var f;
      f, owned := FreshCheck(w, env, owned);
      if f.Died? {
        return Crashed(f.cause), owned;
      }
      report := OverIntact(chain.v.scratch, f.v);
    }
    IssuedActs(w.out, env, start, d, report, w.Now());
    r := IssueVerdict(w, e, env, start, d, report);
  }

  lemma ChainActs(w: Outside, env: Env, start: Start, patch: Bytes, s: Scene)
    ensures Chained(w, env, start, patch, s).s.acts == s.acts
  {
    hide PatchGate.Gate, Contract.Intact, Contract.ManifestOf, ScratchTree;
  }

  lemma IssuedActs(w: Outside, env: Env, start: Start, d: Delivery, r: Report, s: Scene)
    requires d.summary.Some?
    ensures Issued(w, env, start, d, r, s).s.acts == s.acts
  {
    hide Blank, PublishOps, NoDrift;
  }

  /** Worker, payload, verdict. */
  method Supervise(w: World, e: Evidence, env: Env, start: Start) returns (r: Report, created: seq<Obj>)
    requires w.Now().acts == []
    modifies w, e`ops
    ensures var ran := Supervised(w.out, env, start, old(w.Now()));
            && r == ran.r && w.Now() == ran.s && e.ops == old(e.ops) + ran.ops && created == Reported(ran.s.acts)
    ensures RunMeans(w.out, env, start, old(w.clock) + WORKER_OCCASIONS, Ran(r, w.Now(), e.ops[|old(e.ops)|..]))
  {
    hide AllMade, Judged, Elsewhere, RunMeans, Attempts, AllReported, RaisedLast;
    SupervisedMeans(w.out, env, start, w.Now());
    var made;
    made, created := RunWorker(w, env);
    if made.Died? {
      return Crashed(made.cause), created;
    }
    if !made.v {
      e.PutSummary(ENV_FAIL_SUMMARY);
      return Ended(ClusterFailed, ENV_FAIL), created;
    }
    if env.watchRaises {
      return Crashed(WatchTimedOut), created;
    }
    ActsKept(w.out, w.Now());
    w.OthersAct();
    if env.payloadRaises {
      return Crashed(PayloadRaised), created;
    }
    if !Delivered(env) {
      if env.causeRaises {
        return Crashed(WatchTimedOut), created;
      }
      if env.podCause || env.deadlineHit {
        e.PutSummary(ENV_FAIL_SUMMARY);
        return Ended(NoPayloadInfra, ENV_FAIL), created;
      }
      return Ended(NoPayload, CHILD_DIED), created;
    }
    r, created := JudgeDelivery(w, e, env, start, env.delivery.value, created);
  }

  /** `_early_abort`: a marker whose process is not alive goes, and a summary is written only where
      none is. */
  method EarlyAbort(e: Evidence, alive: bool, code: int) returns (r: Report)
    modifies e`ops
    ensures r == Ended(TurnedAway, code)
    ensures e.ops == old(e.ops) + AbortOps(old(e.State()), alive, Refusal(code))
  {
    var marker := e.State().marker;
    var absent := e.State().summary == NoSummary;
    if marker != NoMarker && !(marker == FullMarker && alive) {
      e.DropMarker();
    }
    if absent {
      e.PutSummary(Refusal(code));
    }
    r := Ended(TurnedAway, code);
  }

  /** The refusals before the marker is written, in order, and what an admitted ticket declares. */
  method Admit(env: Env, live: Tree) returns (refused: Option<int>, declared: seq<Names>)
    ensures refused == Refusals(env, live)
    ensures refused.None? <==> env.kubectl && env.preflight && env.image && Gated(env, live).Some?
                               && (declared != [] || Gated(env, live).value.1)
    ensures Gated(env, live).Some? && env.kubectl ==> declared == Gated(env, live).value.0.declared
  {
    hide TicketHeader.ReadHeader, Contract.Admitted, TicketGate.TicketOf;
    declared := [];
    if !env.kubectl { return Some(ENV_FAIL), []; }
    if env.ticketText.None? { return Some(TICKET), []; }
    var header := TicketHeader.ParseHeader(env.ticketText.value);
    var gated := TicketGate.GateTicket(live, [], env.ticketText.value);
    if header.None? || gated.None? { return Some(TICKET), []; }
    declared := gated.value.declared;
    if declared == [] && !header.value.resetNone { return Some(TICKET), []; }
    if !env.preflight || !env.image { return Some(ENV_FAIL), declared; }
    refused := None;
  }

  /** The snapshot of the live tree, and later the packing of HEAD. */
  method TakeSnapshot(w: World) returns (at: nat, before: Contract.Manifest, transported: Tree)
    modifies w
    ensures var snapshot := Elsewhere(w.out, old(w.Now()));
            && w.Now() == Elsewhere(w.out, snapshot) && at == |snapshot.moves| - 1
            && before == Contract.ManifestOf(Live(snapshot), []) && transported == w.out.git.treeOf(Head(w.Now()))
  {
    hide Elsewhere, Contract.ManifestOf;
    w.OthersAct();
    at, before := |w.moves| - 1, Contract.ManifestOf(Last(w.moves).live, []);
    w.OthersAct();
    transported := w.out.git.treeOf(Last(w.moves).head);
  }

  /** From the packed tree on. */
  method CarryOn(w: World, e: Evidence, env: Env, start: Start) returns (r: Report)
    requires w.Now().acts == [] && e.ops == OPENING
    modifies w, e`ops
    ensures Ran(r, w.Now(), e.ops) == Carried(w.out, env, e.before, start, old(w.Now()))
  {
    hide Supervised, Cleaned, AbortOps, Replay, Reported;
    if !env.packs || !env.fits {
      Opened(e.before);
      r := EarlyAbort(e, true, ENV_FAIL);
      return;
    }
    var created;
    r, created := Supervise(w, e, env, start);
    Cleanup(w, created);
    e.DropMarker();
  }

  /** What a launch did to the cluster and to the live tree, and what it was based on. */
  ghost predicate LaunchMeans(w: Outside, env: Env, s: Scene, ran: Ran) {
    && (exists tried :: ClusterMeaning(w, env, s, ran, tried))
    && LandsVerified(w.git, StartOf(w, env, s), PatchOf(env), s.moves, ran.s.moves, ran.r)
    && (ran.r.end != TurnedAway ==> Based(w, env, StartOf(w, env, s), ran.s.moves))
  }

  lemma LaunchProved(w: Outside, env: Env, before: EvidenceDir.Dir, s: Scene)
    requires s.acts == []
    ensures EvidenceMeaning(w, env, before, s, Launch(w, env, before, s))
    ensures Fresh(s) ==> LaunchMeans(w, env, s, Launch(w, env, before, s))
  {
    hide Launch, StartOf, ClusterMeaning, LandsVerified, Based, Fresh, EvidenceMeaning;
    EvidenceSound(w, env, before, s);
    if Fresh(s) {
      var tried := ClusterFrame(w, env, before, s);
      LandedIsVerified(w, env, before, s);
    }
  }

  lemma LaunchCases(w: Outside, env: Env, before: EvidenceDir.Dir, s: Scene)
    ensures var admitted := Elsewhere(w, s);
            var snapshot := Elsewhere(w, admitted);
            var packed := Elsewhere(w, snapshot);
            && (Refusals(env, Live(admitted)).Some? ==>
                  var code := Refusals(env, Live(admitted)).value;
                  Launch(w, env, before, s)
                  == Ran(Ended(TurnedAway, code), admitted, AbortOps(before, env.oldPidAlive, Refusal(code))))
            && (Refusals(env, Live(admitted)).None? ==>
                  && Launch(w, env, before, s) == Carried(w, env, before, StartOf(w, env, s), packed)
                  && Gated(env, Live(admitted)).Some?
                  && StartOf(w, env, s)
                     == Start(if env.startKnown then Some(Head(s)) else None,
                              |s.moves| - 1, |admitted.moves| - 1, |snapshot.moves| - 1, |packed.moves| - 1,
                              Contract.ManifestOf(Live(snapshot), []), Gated(env, Live(admitted)).value.0.declared,
                              w.git.treeOf(Head(packed))))
  {
    hide Carried, Elsewhere, Gated, Contract.ManifestOf, AbortOps;
  }

  /** `host_launch_k8s` after the start commit was captured. */
  method HostLaunch(w: World, e: Evidence, env: Env) returns (r: Report, start: Start)
    requires w.Now().acts == [] && e.ops == []
    modifies w, e`ops
    ensures Ran(r, w.Now(), e.ops) == Launch(w.out, env, e.before, old(w.Now()))
    ensures Refusals(env, Live(Elsewhere(w.out, old(w.Now())))).None? ==> start == StartOf(w.out, env, old(w.Now()))
    ensures EvidenceMeaning(w.out, env, e.before, old(w.Now()), Ran(r, w.Now(), e.ops))
    ensures Fresh(old(w.Now())) ==> LaunchMeans(w.out, env, old(w.Now()), Ran(r, w.Now(), e.ops))
  {
    hide Carried, Elsewhere, Refusals, Gated, Contract.ManifestOf, AbortOps, Replay, EvidenceMeaning, LaunchMeans;
    hide Fresh;
    hide Launch, StartOf;
    ghost var s := w.Now();
    LaunchCases(w.out, env, e.before, s);
    LaunchProved(w.out, env, e.before, s);
    ActsKept(w.out, s);
    ActsKept(w.out, Elsewhere(w.out, s));
    ActsKept(w.out, Elsewhere(w.out, Elsewhere(w.out, s)));
    var commitAt, commit := |w.moves| - 1, if env.startKnown then Some(Last(w.moves).head) else None;
    w.OthersAct();
    var admittedAt := |w.moves| - 1;
    var refused, declared := Admit(env, Last(w.moves).live);
    start := Start(commit, commitAt, admittedAt, 0, 0, map[], declared, map[]);
    if refused.Some? {
      NotOpened(e.before);
      r := EarlyAbort(e, env.oldPidAlive, refused.value);
      return;
    }
    e.PutMarker();
    var snapshotAt, before, transported := TakeSnapshot(w);
    start := Start(commit, commitAt, admittedAt, snapshotAt, |w.moves| - 1, before, declared, transported);
    r := CarryOn(w, e, env, start);
  }

  lemma NotOpened(before: EvidenceDir.Dir)
    ensures Replay(before, []) == before
  {
  }

  lemma Opened(before: EvidenceDir.Dir)
    ensures Replay(before, OPENING) == EvidenceDir.Dir(FullMarker, before.summary)
  {
    assert OPENING == [] + [TruncateMarker] + [WriteMarker];
    ReplaySnoc(before, [], TruncateMarker);
    ReplaySnoc(before, [] + [TruncateMarker], WriteMarker);
  }
}
