/** The parts joined: what a landed patch is, what a pass read by a waiter stands for, and that the judged
    patch is the Pod's. */
module EndToEnd {
  import opened Text
  import opened FileTree
  import opened Verdicts
  import opened EvidenceDir
  import opened World
  import opened HostSpec
  import opened HostLaws
  import Waiter
  import Utf8
  import PatchGate
  import StructuredPatch
  import GateSoundness
  import GateMeaning
  import Contract
  import Payload
  import Framing

  // ---------------------------------------------------------------- a landed patch

  /** The payload's patch bytes are git's rendering of `p`, and numstat names its sections. */
  ghost predicate Prints(env: Env, p: seq<StructuredPatch.Section>) {
    && StructuredPatch.GoodPatch(p) && Utf8.Decode(PatchOf(env)) == Some(StructuredPatch.Render(p))
    && env.numstat == Some(StructuredPatch.Dests(p))
  }

  /** A run that lands: at which state of the repository, what the gate had passed, and that the landed
      tree keeps the contract with the snapshot, taken at its own state of the repository. */
  ghost predicate Landing(w: Outside, env: Env, start: Start, earlier: seq<Move>, now: seq<Move>, r: Report, i: nat) {
    && LandsAt(w.git, start, PatchOf(env), earlier, now, r, i) && Based(w, env, start, now)
    && Contract.Intact(start.before, Contract.ManifestOf(now[i].live, []), start.declared)
    && Utf8.Decode(PatchOf(env)).Some?
    && PatchGate.Gate(Utf8.Decode(PatchOf(env)).value, env.numstat) == PatchGate.Reports([])
    && GateMeaning.Accepted(Utf8.Decode(PatchOf(env)).value, env.numstat)
  }

  lemma LandingOf(w: Outside, env: Env, before: EvidenceDir.Dir, s: Scene) returns (i: nat)
    requires Fresh(s) && Launch(w, env, before, s).r.landed
    ensures var ran := Launch(w, env, before, s); Landing(w, env, StartOf(w, env, s), s.moves, ran.s.moves, ran.r, i)
  {
    hide Launch, StartOf, Based, Fresh, PatchGate.Gate, Contract.Intact, Contract.ManifestOf, Observed, Blank, Replay;
    hide GateMeaning.Accepted;
    var ran, start := Launch(w, env, before, s), StartOf(w, env, s);
    LandedIsVerified(w, env, before, s);
    FreshActs(s);
    EvidenceSound(w, env, before, s);
    OnlyVerdictsLand(w, env, before, s);
    i :| LandsAt(w.git, start, PatchOf(env), s.moves, ran.s.moves, ran.r, i);
    GateMeaning.GateExactly(Utf8.Decode(PatchOf(env)).value, env.numstat);
  }

  lemma FreshActs(s: Scene)
    requires Fresh(s)
    ensures s.acts == []
  {
  }

  lemma OnlyVerdictsLand(w: Outside, env: Env, before: EvidenceDir.Dir, s: Scene)
    requires s.acts == [] && Launch(w, env, before, s).r.landed
    ensures Launch(w, env, before, s).r.end == Verdict
  {
    hide Supervised, Elsewhere, StartOf, Launch, AbortOps, VerdictMeaning, MustRaise, CauseHolds, FreshEvidence;
    hide Attempts, Writes;
    LaunchIs(w, env, before, s);
    OthersKeep(w, s);
    OthersKeep(w, Elsewhere(w, s));
    OthersKeep(w, Elsewhere(w, Elsewhere(w, s)));
    if GoesOn(w, env, s) {
      SupervisedMeans(w, env, StartOf(w, env, s), Packed(w, s));
    }
  }

  /** A landed patch is safe up to the two families the text hides. */
  lemma LandedPatchSafe(w: Outside, env: Env, before: EvidenceDir.Dir, s: Scene, p: seq<StructuredPatch.Section>)
    requires Fresh(s) && Launch(w, env, before, s).r.landed && Prints(env, p)
    ensures (forall x | x in p :: StructuredPatch.Safe(x)) <==>
            (forall x | x in p :: !StructuredPatch.BlankSource(x) && !StructuredPatch.SilentLink(x))
  {
    hide Launch, PatchGate.Gate, StructuredPatch.GoodPatch, Based, LandsAt, Contract.Intact, Contract.ManifestOf;
    hide StartOf;
    hide StructuredPatch.Safe, StructuredPatch.BlankSource, StructuredPatch.SilentLink;
    var i := LandingOf(w, env, before, s);
    GateSoundness.GateSoundness(p);
  }

  /** The snapshot keeps the contract of the transported tree, and no declared path is protected in it:
      by `Contract.SnapshotExactly` this is when every tree that compares clean with the snapshot keeps
      the transported tree's contract. */
  ghost predicate SnapshotFits(start: Start) {
    && Contract.Keeps(start.transported, [], start.before, start.declared)
    && forall rel | rel in start.declared :: rel !in Contract.Protected(start.transported, [])
  }

  /** The live tree was the transported one when the ticket was admitted and when the snapshot was taken. */
  ghost predicate SameTrees(start: Start, moves: seq<Move>) {
    && start.admittedAt < |moves| && moves[start.admittedAt].live == start.transported
    && start.snapshotAt < |moves| && moves[start.snapshotAt].live == start.transported
  }

  /** A landed tree keeps every protected file of the transported tree and adds only declared files under
      tests/ and src/, whenever the snapshot fits; and it fits whenever the ticket was admitted, and the
      snapshot taken, on the transported tree. */
  lemma LandedKeeps(w: Outside, env: Env, before: EvidenceDir.Dir, s: Scene) returns (i: nat)
    requires Fresh(s) && Launch(w, env, before, s).r.landed
    ensures var ran, start := Launch(w, env, before, s), StartOf(w, env, s); var now := ran.s.moves;
            && Landing(w, env, start, s.moves, now, ran.r, i)
            && (SnapshotFits(start) ==>
                  Contract.Keeps(start.transported, [], Contract.ManifestOf(now[i].live, []), start.declared))
            && (WellFormed(start.transported) && SameTrees(start, now) ==> SnapshotFits(start))
  {
    hide Launch, StartOf, Fresh, PatchGate.Gate, Contract.Intact, Contract.ManifestOf, Contract.Keeps;
    hide Contract.Protected;
    hide LandsAt, Utf8.Decode, Gated, WellFormed;
    i := LandingOf(w, env, before, s);
    var ran, start := Launch(w, env, before, s), StartOf(w, env, s);
    var now := ran.s.moves;
    LandedIndex(w.git, start, PatchOf(env), s.moves, now, ran.r, i);
    if SnapshotFits(start) {
      Contract.Inherits(start.before, Contract.ManifestOf(now[i].live, []), start.transported, [], start.declared);
    }
    if WellFormed(start.transported) && SameTrees(start, now) {
      CleanSnapshotFits(env, start);
    }
  }

  /** Between the tree the snapshot was taken of and the landed tree: a guarded file that is not declared
      keeps its bytes, and a file below tests/ or src/ that is not declared was an entry before. */
  lemma LandedFiles(w: Outside, env: Env, before: EvidenceDir.Dir, s: Scene, rel: Names, bytes: Bytes) returns (i: nat)
    requires Fresh(s) && Launch(w, env, before, s).r.landed && rel !in StartOf(w, env, s).declared
    ensures var ran, start := Launch(w, env, before, s), StartOf(w, env, s);
            var now := ran.s.moves;
            && Landing(w, env, start, s.moves, now, ran.r, i) && start.snapshotAt < |now|
            && var snapshot, landed := now[start.snapshotAt].live, now[i].live;
               && (WellFormed(snapshot) && Contract.Guarded(snapshot, [], rel)
                   && Contract.Holds(snapshot, [], rel, bytes) ==>
                     Contract.Holds(landed, [], rel, bytes))
               && (WellFormed(landed) && Contract.Listed(landed, [], rel) && IsFile(landed, [], rel) ==>
                     IsDir(snapshot, [], [rel[0]]) && Stat(snapshot, [], [rel[0]]).value + rel[1..] in snapshot)
  {
    hide Launch, StartOf, Fresh, PatchGate.Gate, Contract.Intact, Contract.ManifestOf, LandsAt, Utf8.Decode, Gated;
    hide WellFormed, Contract.Guarded, Contract.Listed, Contract.Holds, Stat, GateMeaning.Accepted;
    i := LandingOf(w, env, before, s);
    var ran, start := Launch(w, env, before, s), StartOf(w, env, s);
    var now := ran.s.moves;
    LandedIndex(w.git, start, PatchOf(env), s.moves, now, ran.r, i);
    var snapshot, landed := now[start.snapshotAt].live, now[i].live;
    if WellFormed(snapshot) && Contract.Guarded(snapshot, [], rel) && Contract.Holds(snapshot, [], rel, bytes) {
      Contract.FilesKept(snapshot, landed, [], start.declared, rel, bytes);
    }
    if WellFormed(landed) && Contract.Listed(landed, [], rel) && IsFile(landed, [], rel) {
      Contract.FilesAdded(snapshot, landed, [], start.declared, rel);
    }
  }

  lemma LandedIndex(git: Git, start: Start, patch: Bytes, earlier: seq<Move>, now: seq<Move>, r: Report, i: int)
    requires LandsAt(git, start, patch, earlier, now, r, i)
    ensures 0 <= i < |now|
  {
  }

  lemma CleanSnapshotFits(env: Env, start: Start)
    requires WellFormed(start.transported) && start.before == Contract.ManifestOf(start.transported, [])
    requires Gated(env, start.transported).Some? && start.declared == Gated(env, start.transported).value.0.declared
    ensures SnapshotFits(start)
  {
    hide Contract.ManifestOf, Contract.Protected, Contract.Admitted, WellFormed, Contract.Keeps;
    var t := Gated(env, start.transported).value.0;
    assert Contract.Admitted(t, start.transported, []);
    Contract.ExemptionNeverFires(t, start.transported, []);
    Contract.ContractMeaning(t, start.transported, [], start.before);
  }

  // ---------------------------------------------------------------- a pass that a waiter reads

  /** What a published pass was earned with. */
  ghost predicate Earned(env: Env, start: Start, r: Report) {
    && r.end == Verdict && r.rc == Some(0) && Delivered(env)
    && var d := env.delivery.value;
       && Classify(d.summary.value) == Passed && !r.violated && !r.infra && r.recheck == Some(0)
       && (d.internalRc.None? || d.internalRc == Some(0)) && (Blank(d.patch) || r.landed) && r.scratch.Some?
       && Contract.Intact(start.before, Contract.ManifestOf(r.scratch.value, []), start.declared)
  }

  lemma PassedMeansEarned(git: Git, env: Env, start: Start, r: Report, published: Summary)
    requires r.end == Verdict && Delivered(env) && VerdictMeaning(git, env, start, env.delivery.value, r, published)
    requires Classify(published) == Passed
    ensures Earned(env, start, r)
  {
    hide PatchGate.Gate, Contract.Intact, Contract.ManifestOf, Observed, Blank;
  }

  /** A launch as a waiter meets it. */
  ghost function RunOf(w: Outside, env: Env, before: EvidenceDir.Dir, s: Scene, ownPid: bool): Waiter.Run {
    Waiter.Run(before, Launch(w, env, before, s).ops, ownPid)
  }

  /** The launch leaves the summary it found, and no marker: it got no payload, it raised, or it was
      refused before its own marker and no live process holds the one it found. */
  ghost predicate LeavesOld(w: Outside, env: Env, before: EvidenceDir.Dir, s: Scene) {
    var end := Launch(w, env, before, s).r.end;
    || end == NoPayload || end == Exception
    || (Refusals(env, Live(Elsewhere(w, s))).Some? && !(before.marker == FullMarker && env.oldPidAlive))
  }

  /** Beside any launch, however it ends: a pass that a wait reads was earned, or stood there before a
      launch that leaves what it finds. */
  lemma PassRead(w: Outside, env: Env, before: EvidenceDir.Dir, s: Scene, ownPid: bool, trace: seq<Waiter.Sys>,
                 pass: Summary)
    requires s.acts == [] && Classify(pass) == Passed
    requires Waiter.Reads(RunOf(w, env, before, s, ownPid), trace, Some(pass))
    ensures Earned(env, StartOf(w, env, s), Launch(w, env, before, s).r)
            || (LeavesOld(w, env, before, s) && before.summary == WholeSummary(pass))
  {
    hide Launch, StartOf, VerdictMeaning, Replay, Finished, Unfinished, Waiter.Next, Waiter.Begins, AbortOps;
    hide Earned, Refusals;
    hide GoesOn, Elsewhere;
    var ran, run := Launch(w, env, before, s), RunOf(w, env, before, s, ownPid);
    EvidenceSound(w, env, before, s);
    if ran.r.end == TurnedAway && Refusals(env, Live(Elsewhere(w, s))).Some? {
      Waiter.RefusalSafety(run, env.oldPidAlive, Refusal(ran.r.rc.value), trace);
      AbortLeaves(before, env.oldPidAlive, Refusal(ran.r.rc.value));
      if before.marker == FullMarker && env.oldPidAlive {
        Waiter.HeldMarker(run, env.oldPidAlive, Refusal(ran.r.rc.value), trace);
      }
    } else {
      Waiter.WaiterSafety(run, trace);
      if ran.r.end == Verdict { PassedMeansEarned(w.git, env, StartOf(w, env, s), ran.r, pass); }
    }
  }

  /** Beside a launch that found no pass, every pass read was earned. */
  lemma PassesEarned(w: Outside, env: Env, before: EvidenceDir.Dir, s: Scene, ownPid: bool, trace: seq<Waiter.Sys>,
                     pass: Summary)
    requires s.acts == [] && Classify(pass) == Passed
    requires Waiter.Reads(RunOf(w, env, before, s, ownPid), trace, Some(pass))
    requires before.summary.WholeSummary? ==> Classify(before.summary.summary) != Passed
    ensures Earned(env, StartOf(w, env, s), Launch(w, env, before, s).r)
  {
    hide Launch, StartOf, Earned, LeavesOld, Waiter.Reads;
    PassRead(w, env, before, s, ownPid, trace, pass);
  }

  /** What such a launch leaves is read. */
  lemma StalePassRead(w: Outside, env: Env, before: EvidenceDir.Dir, s: Scene, ownPid: bool, stale: Summary)
    returns (trace: seq<Waiter.Sys>)
    requires s.acts == [] && LeavesOld(w, env, before, s) && before.summary == WholeSummary(stale)
    ensures Waiter.Reads(RunOf(w, env, before, s, ownPid), trace, Some(stale))
    ensures Launch(w, env, before, s).r.end != Verdict
  {
    hide Launch, StartOf, Waiter.Reads, Replay, Finished, Unfinished, AbortOps, Refusals, Elsewhere, VerdictMeaning;
    var ran, run := Launch(w, env, before, s), RunOf(w, env, before, s, ownPid);
    EvidenceSound(w, env, before, s);
    RefusedTurnsAway(w, env, before, s);
    if ran.r.end == TurnedAway {
      AbortLeaves(before, env.oldPidAlive, Refusal(ran.r.rc.value));
    } else {
      ReplaySnoc(before, OPENING, RemoveMarker);
    }
    trace := Waiter.FinalRead(run);
  }

  lemma RefusedTurnsAway(w: Outside, env: Env, before: EvidenceDir.Dir, s: Scene)
    ensures Refusals(env, Live(Elsewhere(w, s))).Some? ==> Launch(w, env, before, s).r.end == TurnedAway
  {
    hide Refusals, Elsewhere, Carried, AbortOps, StartOf;
  }

  /** A pass that the run did not earn can be read beside it exactly if it stood there before, and the run
      leaves what it finds. */
  lemma UnearnedExactly(w: Outside, env: Env, before: EvidenceDir.Dir, s: Scene, ownPid: bool, pass: Summary)
    requires s.acts == [] && Classify(pass) == Passed
    ensures (exists trace :: Waiter.Reads(RunOf(w, env, before, s, ownPid), trace, Some(pass)))
              && !Earned(env, StartOf(w, env, s), Launch(w, env, before, s).r) <==>
            LeavesOld(w, env, before, s) && before.summary == WholeSummary(pass)
  {
    hide Launch, StartOf, Waiter.Reads, LeavesOld;
    if LeavesOld(w, env, before, s) && before.summary == WholeSummary(pass) {
      var trace := StalePassRead(w, env, before, s, ownPid, pass);
    }
    if trace :| Waiter.Reads(RunOf(w, env, before, s, ownPid), trace, Some(pass)) {
      PassRead(w, env, before, s, ownPid, trace, pass);
    }
  }

  // ---------------------------------------------------------------- the payload as a delivery

  /** How the host reads the files of a payload; the two parsers are parameters. */
  function DeliveryOf(files: map<string, Bytes>, verdict: Bytes -> Option<Summary>,
                      code: Bytes -> Option<int>): Delivery {
    Delivery(if "summary.json" in files then verdict(files["summary.json"]) else None,
             if "internal_rc.txt" in files then code(files["internal_rc.txt"]) else None,
             if "changes.patch" in files then files["changes.patch"] else [])
  }

  /** The patch the host judges is byte for byte the patch the Pod packed, through the payload and
      through the strict decoding and the writing out for the scratch tree. */
  lemma OnePatch(c: Payload.Codec, files: seq<(string, Bytes)>, pre: string, nonce: string, post: string,
                 verdict: Bytes -> Option<Summary>, code: Bytes -> Option<int>, i: nat)
    requires Payload.Lossless(c) && Payload.Short(files) && Payload.Distinct(files)
    requires Framing.Nonce(nonce) && !Framing.Straddles(pre, Framing.Begin(nonce))
    requires Framing.Find(Framing.Begin(nonce), pre).None? && Framing.Find(Framing.Begin(nonce), post).None?
    requires (forall f | f in files :: Payload.Flat(f.0)) && Payload.FitsBudgets(files)
    requires i < |files| && files[i].0 == "changes.patch"
    ensures var x := Payload.Extraction(c, pre + Framing.Printed(nonce, Payload.Build(c, files)) + post, nonce);
            && x.Files? && DeliveryOf(x.files, verdict, code).patch == files[i].1
            && (Utf8.Decode(files[i].1).Some? ==> Utf8.Encode(Utf8.Decode(files[i].1).value) == files[i].1)
  {
    hide Payload.Extraction, Payload.Short, Payload.Flat, Payload.FitsBudgets, Framing.Straddles, Framing.Find;
    hide Utf8.Decode, Utf8.Encode, Framing.Nonce, Framing.Begin, Framing.Printed, Payload.Build;
    Payload.PayloadRoundTrip(c, files, pre, nonce, post);
    var m := Payload.AsMap(files);
    assert m["changes.patch"] == files[i].1;
    if Utf8.Decode(files[i].1).Some? { Utf8.EncodeOfDecode(files[i].1); }
  }
}
