/** Runs that show where a promise of the launcher ends: everything answers well, and others make at most
    two short changes, each undone: to the live tree at the snapshot, to the staged file at the upload. */
module HostWitness {
  import opened Text
  import opened FileTree
  import opened Verdicts
  import opened EvidenceDir
  import opened World
  import opened HostSpec
  import opened HostLaws
  import Utf8
  import PatchGate
  import Contract

  /** The setting: one commit and its tree, the tree the patch makes of it, what the live tree and the
      staged file hold for a moment. */
  datatype Setting = Setting(head: Commit, live: Tree, landed: Tree, dirty: Tree, patch: Bytes, other: Bytes)

  function Deeds(x: Setting, t: nat): Deed {
    if t == 1 then Deed(Some((x.head, x.dirty)), None, {}, {})
    else if t == 2 then Deed(Some((x.head, x.live)), None, {}, {})
    else if t == 11 then Deed(None, Some(Some(x.other)), {}, {})
    else if t == 13 then Deed(None, Some(Some(x.patch)), {}, {})
    else IDLE
  }

  ghost predicate Setup(x: Setting, w: Outside) {
    && (forall t :: w.deeds(t) == Deeds(x, t))
    && w.git.treeOf(x.head) == x.live && w.git.apply(x.live, x.patch) == Some(x.landed)
  }

  /** Every answer is the good one; the fresh check is green, by whichever of its ways. */
  ghost predicate AllWell(x: Setting, env: Env, worker: Summary) {
    && env.startKnown && Refusals(env, x.live).None? && env.packs && env.fits && (forall o :: env.answer(o) == Done)
    && !env.watchRaises && !env.payloadRaises && env.delivery == Some(Delivery(Some(worker), None, x.patch))
    && worker.rc == 0
    && Utf8.Decode(x.patch).Some? && !Blank(x.patch) && |x.patch| <= TRANSPORT_MAX
    && PatchGate.Gate(Utf8.Decode(x.patch).value, env.numstat) == PatchGate.Reports([]) && env.scratchMade
    && !env.recheck.raises && Observed(env.recheck) == FreshResult(0, false) && env.gitAnswers && env.applyRuns
  }

  // ---------------------------------------------------------------- the scenes of such a run

  /** After `n` creates; the cluster was empty before. */
  ghost function At(moves: Moves, file: Option<Bytes>, n: nat, clock: nat): Scene
    requires n <= 6
  {
    var made := set o | o in ORDER[..n];
    Scene(moves, file, made, made, seq(n, i requires 0 <= i < n => Tried(ORDER[i], Done, false)), clock)
  }

  lemma Quiet(w: Outside, s: Scene)
    requires w.deeds(s.clock) == IDLE
    ensures Elsewhere(w, s) == s.(clock := s.clock + 1)
  {
    assert s.objects - (IDLE.gone - s.ours) + IDLE.made == s.objects;
  }

  lemma MadeNext(w: Outside, env: Env, moves: Moves, file: Option<Bytes>, n: nat, clock: nat)
    requires n < 6 && w.deeds(clock) == IDLE && env.answer(ORDER[n]) == Done
    ensures Made(w, env, ORDER[n], At(moves, file, n, clock)) == Step(Value(true), At(moves, file, n + 1, clock + 1))
  {
    Quiet(w, At(moves, file, n, clock));
    TryNext(moves, file, n, clock + 1);
  }

  lemma TryNext(moves: Moves, file: Option<Bytes>, n: nat, clock: nat)
    requires n < 6
    ensures Try(At(moves, file, n, clock), ORDER[n], Done) == (Created, At(moves, file, n + 1, clock))
  {
    OrderDistinct();
    var s, t := At(moves, file, n, clock), At(moves, file, n + 1, clock);
    assert ORDER[..n + 1] == ORDER[..n] + [ORDER[n]];
    assert t.objects == s.objects + {ORDER[n]} && t.acts == s.acts + [Tried(ORDER[n], Done, false)];
  }

  lemma {:induction false} WorkerMade(w: Outside, env: Env, moves: Moves, file: Option<Bytes>, n: nat, clock: nat)
    requires n <= 4 && (forall t | clock <= t < clock + 4 - n :: w.deeds(t) == IDLE)
    requires forall o :: env.answer(o) == Done
    ensures AllMade(w, env, ORDER[n..4], At(moves, file, n, clock))
            == Step(Value(true), At(moves, file, 4, clock + 4 - n))
    decreases 4 - n
  {
    hide Made, At;
    if n < 4 {
      assert ORDER[n..4][1..] == ORDER[n + 1..4];
      MadeNext(w, env, moves, file, n, clock);
      WorkerMade(w, env, moves, file, n + 1, clock + 1);
    }
  }

  ghost function MovesOf(x: Setting): Moves {
    [Move(false, x.head, x.live), Move(false, x.head, x.dirty), Move(false, x.head, x.live)]
  }

  ghost function First(x: Setting): Scene {
    At([Move(false, x.head, x.live)], None, 0, 0)
  }

  lemma PackedScene(x: Setting, w: Outside)
    requires Setup(x, w)
    ensures Packed(w, First(x)) == At(MovesOf(x), None, 0, 3)
    ensures Live(Elsewhere(w, First(x))) == x.live && First(x).acts == [] && Fresh(First(x))
    ensures Live(Elsewhere(w, Elsewhere(w, First(x)))) == x.dirty && Head(Packed(w, First(x))) == x.head
  {
    var s := First(x);
    assert ORDER[..0] == [];
    Quiet(w, s);
    var one := Elsewhere(w, s);
    var two := Elsewhere(w, one);
    assert two.moves == [Move(false, x.head, x.live), Move(false, x.head, x.dirty)];
    assert Elsewhere(w, two).moves == MovesOf(x);
  }

  /** Its scenes once the worker's objects are made: when the payload arrives, when its patch is staged,
      after the contract chain, and after the fresh check. */
  ghost function PayloadRead(x: Setting): Scene {
    At(MovesOf(x), None, 4, 8)
  }

  ghost function PatchStaged(x: Setting): Scene {
    At(MovesOf(x), Some(x.patch), 4, 8)
  }

  ghost function ChainDone(x: Setting): Scene {
    At(MovesOf(x), Some(x.patch), 4, 10)
  }

  ghost function FreshChecked(x: Setting): Scene {
    At(MovesOf(x), Some(x.patch), 6, 14)
  }

  /** What the fresh check comes to, and the report over it. */
  ghost function Recheck(x: Setting): FreshRun {
    FreshRun(FreshResult(0, false), Some(x.other))
  }

  ghost function Over(x: Setting): Report {
    OverIntact(x.landed, Recheck(x))
  }

  /** Such a run from the delivered payload on, and from its verdict on. */
  ghost function JudgedRun(x: Setting, w: Outside, env: Env, worker: Summary, start: Start): Ran {
    Judged(w, env, start, Delivery(Some(worker), None, x.patch), PayloadRead(x))
  }

  ghost function IssuedRun(x: Setting, w: Outside, env: Env, worker: Summary, start: Start): Ran {
    Issued(w, env, start, Delivery(Some(worker), None, x.patch), Over(x), FreshChecked(x))
  }

  lemma ChainScene(x: Setting, w: Outside, env: Env, worker: Summary, start: Start)
    requires Setup(x, w) && AllWell(x, env, worker) && start.transported == x.live
    requires Contract.Intact(start.before, Contract.ManifestOf(x.landed, []), start.declared)
    ensures Chained(w, env, start, x.patch, PatchStaged(x)) == Step(Value(Holds(x.landed)), ChainDone(x))
  {
    hide PatchGate.Gate, Contract.Intact, Contract.ManifestOf, Elsewhere, Utf8.Decode, Utf8.Encode, Strip, Refusals;
    hide Observed;
    Utf8.EncodeOfDecode(x.patch);
    Quiet(w, At(MovesOf(x), Some(x.patch), 4, 8));
    Quiet(w, At(MovesOf(x), Some(x.patch), 4, 9));
  }

  lemma RecheckScene(x: Setting, w: Outside, env: Env, worker: Summary)
    requires Setup(x, w) && AllWell(x, env, worker)
    ensures Rechecked(w, env, ChainDone(x)) == Step(Value(Recheck(x)), FreshChecked(x))
  {
    hide PatchGate.Gate, Refusals, Observed, Blank, Made, Try;
    var s := At(MovesOf(x), Some(x.patch), 4, 10);
    Quiet(w, s);
    var uploading := Elsewhere(w, Elsewhere(w, s));
    assert uploading.objects == s.objects && uploading.file == Some(x.other);
    assert uploading == At(MovesOf(x), Some(x.other), 4, 12);
    TryNext(MovesOf(x), Some(x.other), 4, 12);
    MadeNext(w, env, MovesOf(x), Some(x.other), 5, 12);
    var made := At(MovesOf(x), Some(x.other), 6, 13);
    assert Elsewhere(w, made).objects == made.objects && Elsewhere(w, made).file == Some(x.patch);
  }

  lemma {:induction false} CleanupIdle(w: Outside, created: seq<Obj>, s: Scene)
    requires forall t | t >= s.clock :: w.deeds(t) == IDLE
    ensures Cleaned(w, created, s).moves == s.moves
    decreases |created|
  {
    if created != [] {
      Quiet(w, s);
      CleanupIdle(w, created[1..], Remove(Elsewhere(w, s), created[0]));
    }
  }

  /** How such a run comes out. */
  ghost predicate Comes(x: Setting, ran: Ran) {
    && ran.r.end == Verdict && ran.r.rc == Some(0) && ran.r.landed && ran.r.recheck == Some(0)
    && ran.r.upload == Some(x.other) && Live(ran.s) == x.landed
  }

  /** And what it was decided on. */
  ghost predicate LandsAnyway(x: Setting, start: Start, ran: Ran) {
    Comes(x, ran) && start.transported == x.live && start.before == Contract.ManifestOf(x.dirty, [])
  }

  lemma IssuedScene(x: Setting, w: Outside, env: Env, worker: Summary, start: Start)
    requires Setup(x, w) && AllWell(x, env, worker) && start.commit == Some(x.head)
    ensures Comes(x, IssuedRun(x, w, env, worker, start))
    ensures var ran := IssuedRun(x, w, env, worker, start); Left(ran.ops) == Some(worker) && ran.s.clock == 14
  {
    hide PatchGate.Gate, Refusals, Observed, Blank;
  }

  lemma BodyScene(x: Setting, w: Outside, env: Env, worker: Summary)
    requires Setup(x, w) && AllWell(x, env, worker)
    requires Contract.Intact(Contract.ManifestOf(x.dirty, []), Contract.ManifestOf(x.landed, []),
                             StartOf(w, env, First(x)).declared)
    ensures var ran, start := Body(w, env, First(x)), StartOf(w, env, First(x));
            && GoesOn(w, env, First(x)) && LandsAnyway(x, start, ran) && Left(ran.ops) == Some(worker)
            && ran.s.clock == 14
  {
    hide PatchGate.Gate, Refusals, Observed, Blank, Gated, Contract.Intact, Contract.ManifestOf;
    hide AllMade, Judged, Comes, Utf8.Decode, At;
    var start := StartOf(w, env, First(x));
    PackedScene(x, w);
    assert start.commit == Some(x.head) by { assert Head(First(x)) == x.head by { FirstHead(x); } }
    WorkerMade(w, env, MovesOf(x), None, 0, 3);
    assert ORDER[0..4] == WORKER;
    QuietAt(w, MovesOf(x), None, 4, 7);
    JudgedScene(x, w, env, worker, start);
  }

  lemma JudgedScene(x: Setting, w: Outside, env: Env, worker: Summary, start: Start)
    requires Setup(x, w) && AllWell(x, env, worker) && start.commit == Some(x.head) && start.transported == x.live
    requires Contract.Intact(start.before, Contract.ManifestOf(x.landed, []), start.declared)
    ensures Comes(x, JudgedRun(x, w, env, worker, start))
    ensures var ran := JudgedRun(x, w, env, worker, start); Left(ran.ops) == Some(worker) && ran.s.clock == 14
  {
    hide PatchGate.Gate, Refusals, Observed, Blank, Contract.Intact, Contract.ManifestOf;
    hide Chained, Rechecked, Issued, Utf8.Decode, At, Comes;
    StagedAt(x, MovesOf(x), 4, 8);
    ChainScene(x, w, env, worker, start);
    RecheckScene(x, w, env, worker);
    IssuedScene(x, w, env, worker, start);
  }

  lemma FirstHead(x: Setting)
    ensures Head(First(x)) == x.head
  {
  }

  lemma QuietAt(w: Outside, moves: Moves, file: Option<Bytes>, n: nat, clock: nat)
    requires n <= 6 && w.deeds(clock) == IDLE
    ensures Elsewhere(w, At(moves, file, n, clock)) == At(moves, file, n, clock + 1)
  {
    Quiet(w, At(moves, file, n, clock));
  }

  lemma StagedAt(x: Setting, moves: Moves, n: nat, clock: nat)
    requires n <= 6
    ensures StagedAs(At(moves, None, n, clock), x.patch) == At(moves, Some(x.patch), n, clock)
  {
  }

  /** A run lands whenever the patched tree keeps the contract of what the live tree held for the moment
      of the snapshot, whatever the transported tree held; and its fresh Job checked what the staged
      file held for the moment of the upload, whatever the payload's patch is. */
  lemma MomentsDecide(x: Setting, w: Outside, env: Env, worker: Summary, before: EvidenceDir.Dir)
    requires Setup(x, w) && AllWell(x, env, worker)
    requires Contract.Intact(Contract.ManifestOf(x.dirty, []), Contract.ManifestOf(x.landed, []),
                             StartOf(w, env, First(x)).declared)
    ensures var ran := Launch(w, env, before, First(x));
            && LandsAnyway(x, StartOf(w, env, First(x)), ran)
            && Replay(before, ran.ops).summary == WholeSummary(worker)
  {
    hide Supervised, StartOf, Refusals, AllWell, Contract.Intact, Contract.ManifestOf, Writes, FreshEvidence;
    hide MustRaise, VerdictMeaning;
    hide CauseHolds, Elsewhere, AbortOps, Launch;
    var body := Body(w, env, First(x));
    BodyScene(x, w, env, worker);
    LaunchIs(w, env, before, First(x));
    CleanupIdle(w, Reported(body.s.acts), body.s);
    PackedScene(x, w);
    SupervisedMeans(w, env, StartOf(w, env, First(x)), Packed(w, First(x)));
    SummaryLeft(before, body.ops);
  }
}
