/** One concrete setting for the runs of `HostWitness`: a ticket that declares nothing, and a patch to
    the one file of the tree, a protected test. */
module HostCase {
  import opened Text
  import opened FileTree
  import opened Verdicts
  import opened EvidenceDir
  import opened World
  import opened HostSpec
  import opened HostLaws
  import opened HostWitness
  import Utf8
  import PatchGate
  import StructuredPatch
  import GateSoundness
  import Contract
  import TicketHeader
  import TicketGate

  /** Where the one file is: a protected test, or a document. */
  type Top = t: string | t == "tests" || t == "docs" witness "docs"

  function Rel(top: Top): Names {
    [top, "a"]
  }

  /** The tree whose one file holds one byte. */
  function TreeOf(top: Top, b: Byte): Tree {
    map[[top] := Node.Dir, Rel(top) := File([b], true)]
  }

  function PathOf(top: Top): Bytes {
    PatchGate.Ascii(top) + [PatchGate.SLASH] + PatchGate.Ascii("a")
  }

  function SectionOf(top: Top): StructuredPatch.Section {
    StructuredPatch.Section(StructuredPatch.Modify(PathOf(top), StructuredPatch.Regular, StructuredPatch.Regular),
                            "", "0..1", true, "", "", "", [])
  }

  function TextOf(top: Top): string {
    StructuredPatch.Render([SectionOf(top)])
  }

  function Patch(top: Top): Bytes {
    Utf8.Encode(TextOf(top))
  }

  /** Git makes the second tree of the first with this patch. */
  function Apply(top: Top, tree: Tree, patch: Bytes): Option<Tree> {
    if tree == TreeOf(top, 1) && patch == Patch(top) then Some(TreeOf(top, 2)) else None
  }

  function CaseSetting(top: Top, dirty: Tree, other: Bytes): Setting {
    Setting(0, TreeOf(top, 1), TreeOf(top, 2), dirty, Patch(top), other)
  }

  function CaseOutside(top: Top, x: Setting): Outside {
    Outside(Git(c => TreeOf(top, 1), (t: Tree, p: Bytes) => Apply(top, t, p)), (t: nat) => Deeds(x, t))
  }

  const GREEN := FreshAnswers(false, true, false, false, 0, false)

  function CaseEnv(top: Top, worker: Summary, recheck: FreshAnswers): Env {
    Env(false, true, Some("reset:none"), true, true, true, true, true, o => Done, false,
        false, Some(Delivery(Some(worker), None, Patch(top))), false, false, false,
        Some(StructuredPatch.Dests([SectionOf(top)])), true, recheck, true, true)
  }

  // ---------------------------------------------------------------- the ticket

  lemma NotKind(s: string, k: TicketHeader.Kind)
    requires |s| > 0 && s[0] == 'r'
    ensures TicketHeader.FilePath(s, k).None?
  {
  }

  lemma ResetTicket()
    ensures TicketHeader.ReadHeader("reset:none") == Some(TicketHeader.Header([], [], false, true))
  {
    hide TicketHeader.SaysNone, TicketHeader.FilePath, TicketHeader.LooksLikeHeader, Strip, TicketHeader.SplitLines;
    var s := "reset:none";
    OneLine(s);
    StripTight(s);
    NotKind(s, TicketHeader.Impl);
    NotKind(s, TicketHeader.Test);
    NotKind(s, TicketHeader.Docs);
    NotKind(s, TicketHeader.Edit);
    NotKind(s, TicketHeader.Accept);
    ResetLine();
    TicketHeader.ClassesAt([s], 0);
    assert [s][0..] == [s] && [s][1..] == [];
    TicketHeader.CollectStep(TicketHeader.ResetNone, [], TicketHeader.EMPTY);
    assert [TicketHeader.ResetNone] + [] == [TicketHeader.ResetNone];
  }

  lemma OneLine(s: string)
    requires s != "" && forall c | c in s :: !TicketHeader.Breaks(c)
    ensures TicketHeader.SplitLines(s) == [s]
  {
    TicketHeader.LineEndOf(s, "");
    assert s + "" == s;
  }

  lemma ResetLine()
    ensures !TicketHeader.SaysNone("reset:none", "accept:") && TicketHeader.SaysNone("reset:none", "reset:")
  {
    hide LStrip, TicketHeader.Folds;
    var s := "reset:none";
    assert s[|"reset:"|..] == "none" && "none"[4..] == "";
    Stripped();
    SameFolds("reset:", s);
    SameFolds("none", "none");
    assert !TicketHeader.FoldPrefix(s, "accept:") by { FirstFolds(); }
  }

  lemma FirstFolds()
    ensures !TicketHeader.Folds("reset:none"[0], "accept:"[0])
  {
  }

  lemma SameFolds(word: string, s: string)
    requires word <= s
    ensures TicketHeader.FoldPrefix(s, word)
  {
  }

  lemma Stripped()
    ensures LStrip("none") == "none" && LStrip("") == ""
  {
    hide LStrip;
    assert !IsSpace('n');
    Tight("none");
    Tight("");
  }

  lemma Tight(s: string)
    requires s == "" || !IsSpace(s[0])
    ensures LStrip(s) == s
  {
  }

  lemma CaseAdmits(top: Top, worker: Summary, recheck: FreshAnswers, live: Tree)
    ensures Refusals(CaseEnv(top, worker, recheck), live).None?
    ensures Gated(CaseEnv(top, worker, recheck), live).Some?
            && Gated(CaseEnv(top, worker, recheck), live).value.0.declared == []
  {
    hide Patch, TextOf, SectionOf, StructuredPatch.Dests, Gated;
    EmptyAdmitted(CaseEnv(top, worker, recheck), live);
  }

  lemma EmptyAdmitted(env: Env, live: Tree)
    requires env.ticketText == Some("reset:none")
    ensures Gated(env, live) == Some((Contract.Ticket([], [], []), true))
  {
    hide TicketHeader.ReadHeader, Contract.Admitted;
    ResetTicket();
    var t := TicketGate.TicketOf(TicketHeader.Header([], [], false, true));
    assert t == Contract.Ticket([], [], []);
    NothingRefused(live);
  }

  lemma NothingRefused(live: Tree)
    ensures Contract.Admitted(Contract.Ticket([], [], []), live, [])
  {
  }

  // ---------------------------------------------------------------- the patch

  lemma PatchAccepted(top: Top)
    ensures PatchGate.Gate(TextOf(top), Some(StructuredPatch.Dests([SectionOf(top)]))) == PatchGate.Reports([])
  {
    hide PatchGate.Gate, StructuredPatch.Render;
    SectionPasses(top);
    GateSoundness.GateDecides([SectionOf(top)]);
  }

  lemma SectionGood(top: Top)
    requires StructuredPatch.FilePath(PathOf(top))
    ensures StructuredPatch.GoodSection(SectionOf(top)) && StructuredPatch.GoodPatch([SectionOf(top)])
    ensures GateSoundness.EndpointsClean(SectionOf(top).change) && !GateSoundness.ShownLink(SectionOf(top))
  {
    hide StructuredPatch.FilePath;
    assert forall c | c in SectionOf(top).hashes :: c == '0' || c == '.' || c == '1';
  }

  lemma SectionPasses(top: Top)
    ensures StructuredPatch.GoodPatch([SectionOf(top)]) && GateSoundness.SectionAccepted(SectionOf(top))
  {
    hide StructuredPatch.Confined, GateSoundness.SectionAccepted;
    GateSoundness.SampleConfined(PatchGate.Ascii(top), PatchGate.Ascii("a"));
    GateSoundness.NamesFile(PathOf(top));
    GateSoundness.JudgeDecides(PathOf(top));
    SectionGood(top);
    GateSoundness.AcceptedByRule(SectionOf(top));
  }

  lemma {:induction false} EncodeShort(s: string)
    ensures |Utf8.Encode(s)| <= 4 * |s|
  {
    if s != "" {
      EncodeShort(s[1..]);
    }
  }

  lemma {:induction false} LinesLength(lines: seq<string>)
    requires forall l | l in lines :: |l| <= 20
    ensures |Unlines(lines, '\n')| <= 21 * |lines|
  {
    if lines != [] {
      LinesLength(lines[1..]);
    }
  }

  lemma TextLines(top: Top)
    ensures StructuredPatch.Lines([SectionOf(top)]) == ["diff --git ", "index 0..1 100644"]
  {
    hide StructuredPatch.BodyLines, PathOf;
    BodyLine(top);
    assert [SectionOf(top)][1..] == [] && "diff --git " + "" == "diff --git " && StructuredPatch.Lines([]) == [];
    assert ["diff --git "] + ["index 0..1 100644"] + [] == ["diff --git ", "index 0..1 100644"];
  }

  lemma BodyLine(top: Top)
    ensures StructuredPatch.BodyLines(SectionOf(top)) == ["index 0..1 100644"]
  {
    hide PathOf;
    assert "index " + "0..1" + (" " + "100644") == "index 0..1 100644";
    assert [] + [] + ["index 0..1 100644"] + [] == ["index 0..1 100644"];
    assert StructuredPatch.IndexLines(SectionOf(top)) == ["index 0..1 100644"];
  }

  lemma PatchShort(top: Top)
    ensures |Patch(top)| <= TRANSPORT_MAX && Utf8.Decode(Patch(top)) == Some(TextOf(top)) && !Blank(Patch(top))
  {
    hide Utf8.Encode, Utf8.Decode, StructuredPatch.Render, StructuredPatch.Lines, Strip;
    TextLines(top);
    var lines := StructuredPatch.Lines([SectionOf(top)]);
    assert TextOf(top) == Unlines(lines, '\n') by { Rendered(top); }
    LinesLength(lines);
    EncodeShort(TextOf(top));
    Utf8.DecodeOfEncode(TextOf(top));
    assert TextOf(top)[0] == 'd' by { FirstLetter(lines); }
    NotBlank(TextOf(top));
  }

  lemma Rendered(top: Top)
    ensures TextOf(top) == Unlines(StructuredPatch.Lines([SectionOf(top)]), '\n')
  {
    hide StructuredPatch.Lines;
  }

  lemma FirstLetter(lines: seq<string>)
    requires lines != [] && lines[0] != "" && lines[0][0] == 'd'
    ensures Unlines(lines, '\n') != "" && Unlines(lines, '\n')[0] == 'd'
  {
  }

  lemma NotBlank(s: string)
    requires s != "" && s[0] == 'd'
    ensures Strip(s) != ""
  {
    var lo, hi := StripSpan(s);
  }

  // ---------------------------------------------------------------- the trees

  lemma FileAt(top: Top, b: Byte)
    ensures var fs := TreeOf(top, b);
            && Stat(fs, [], [top]) == Some([top]) && Stat(fs, [top], ["a"]) == Some(Rel(top))
            && Stat(fs, [], Rel(top)) == Some(Rel(top))
  {
    var fs, rel := TreeOf(top, b), Rel(top);
    assert [top][1..] == [] && rel[1..] == ["a"] && ["a"][1..] == [] && [] + [top] == [top] && [top] + ["a"] == rel;
    assert Walk(fs, [top], ["a"], MAX_LINKS, true) == Some(rel) by {
      assert Walk(fs, rel, [], MAX_LINKS, true) == Some(rel);
    }
    assert Walk(fs, [top], [], MAX_LINKS, true) == Some([top]);
  }

  /** The test is a protected file, and its digest is the one of its byte. */
  lemma TestProtected(b: Byte)
    ensures Rel("tests") in Contract.Protected(TreeOf("tests", b), [])
    ensures Contract.DigestOf(TreeOf("tests", b), [], Rel("tests")) == Contract.Sha([b])
  {
    var rel := Rel("tests");
    FileAt("tests", b);
    assert [] + rel == rel && rel[..1] == ["tests"] && [] + [rel[0]] == ["tests"];
    Contract.InWalk(TreeOf("tests", b), [], rel);
  }

  lemma ContractBroken()
    ensures !Contract.Keeps(TreeOf("tests", 1), [], Contract.ManifestOf(TreeOf("tests", 2), []), [])
  {
    hide Contract.Protected, Contract.ManifestOf, Contract.DigestOf;
    TestProtected(1);
    TestProtected(2);
    Contract.SnapshotSplit(TreeOf("tests", 2), []);
  }

  /** A tree that holds a document only has nothing in its manifest. */
  lemma NothingListed(b: Byte)
    ensures Contract.ManifestOf(TreeOf("docs", b), []) == map[]
  {
    var fs := TreeOf("docs", b);
    NotThere(fs, "tests");
    NotThere(fs, "src");
    NotThere(fs, "scripts");
    assert ["scripts", "run.sh"][1..] == ["run.sh"] && ["scripts", "stacks"][1..] == ["stacks"];
    assert [] + ["scripts"] == ["scripts"];
    assert Contract.Protected(fs, []) == {} && Contract.SrcFiles(fs, []) == {};
  }

  lemma DocumentIntact()
    ensures Contract.Intact(Contract.ManifestOf(TreeOf("docs", 1), []), Contract.ManifestOf(TreeOf("docs", 2), []), [])
  {
    NothingListed(1);
    NothingListed(2);
  }

  lemma NotThere(fs: Tree, name: string)
    requires Proper(name) && [name] !in fs
    ensures !IsDir(fs, [], [name])
  {
    assert [name][1..] == [] && [] + [name] == [name];
    assert Walk(fs, [name], [], MAX_LINKS, true) == Some([name]);
  }

  // ---------------------------------------------------------------- the runs

  const PASSED := Summary(0, PASS, Some(CleanFirst))
  const CLAIMED := Summary(0, FAIL, None)

  /** A fresh Job that never completed, with exit code 0 and nothing to say. */
  const UNCOMPLETED := FreshAnswers(false, false, false, false, 0, false)

  ghost function CaseRun(top: Top, dirty: Tree, other: Bytes, worker: Summary, recheck: FreshAnswers,
                         before: EvidenceDir.Dir): Ran {
    var x := CaseSetting(top, dirty, other);
    Launch(CaseOutside(top, x), CaseEnv(top, worker, recheck), before, First(x))
  }

  lemma CaseSetUp(top: Top, dirty: Tree, other: Bytes)
    ensures var x := CaseSetting(top, dirty, other); Setup(x, CaseOutside(top, x))
  {
    hide Patch;
  }

  lemma CaseWell(top: Top, dirty: Tree, other: Bytes, worker: Summary, recheck: FreshAnswers)
    requires worker.rc == 0 && !recheck.raises && Observed(recheck) == FreshResult(0, false)
    ensures AllWell(CaseSetting(top, dirty, other), CaseEnv(top, worker, recheck), worker)
  {
    hide Patch, TextOf, PatchGate.Gate, Refusals, Utf8.Decode, Blank, Observed;
    PatchShort(top);
    PatchAccepted(top);
    CaseAdmits(top, worker, recheck, TreeOf(top, 1));
  }

  /** The same run without a payload and without an infrastructure cause: it ends having published nothing. */
  lemma NothingDelivered(top: Top, dirty: Tree, other: Bytes, before: EvidenceDir.Dir)
    ensures var x := CaseSetting(top, dirty, other);
            var ran := Launch(CaseOutside(top, x), CaseEnv(top, PASSED, GREEN).(delivery := None), before, First(x));
            ran.r.end == NoPayload && ran.ops == OPENING + [RemoveMarker]
  {
    hide Patch, TextOf, SectionOf, StructuredPatch.Dests, Launch, Gated, Refusals, CaseOutside, Contract.ManifestOf;
    hide At, AllMade;
    hide Cleaned, Elsewhere;
    var x := CaseSetting(top, dirty, other);
    var w, env := CaseOutside(top, x), CaseEnv(top, PASSED, GREEN).(delivery := None);
    CaseSetUp(top, dirty, other);
    PackedScene(x, w);
    StillAdmits(env, Live(Elsewhere(w, First(x))));
    LaunchIs(w, env, before, First(x));
    WorkerMade(w, env, MovesOf(x), None, 0, 3);
    assert ORDER[0..4] == WORKER;
    assert OPENING + [] + [RemoveMarker] == OPENING + [RemoveMarker];
  }

  lemma StillAdmits(env: Env, live: Tree)
    requires env.kubectl && env.ticketText == Some("reset:none") && env.preflight && env.image
    ensures Refusals(env, live).None?
  {
    hide Gated;
    EmptyAdmitted(env, live);
  }

  /** Such a run lands: the fresh Job was given `other`, and what is published is the worker's claim. */
  lemma CaseLands(top: Top, dirty: Tree, other: Bytes, worker: Summary, recheck: FreshAnswers, before: EvidenceDir.Dir)
    requires worker.rc == 0 && !recheck.raises && Observed(recheck) == FreshResult(0, false)
    requires Contract.Intact(Contract.ManifestOf(dirty, []), Contract.ManifestOf(TreeOf(top, 2), []), [])
    ensures var x := CaseSetting(top, dirty, other);
            var ran := CaseRun(top, dirty, other, worker, recheck, before);
            && LandsAnyway(x, StartOf(CaseOutside(top, x), CaseEnv(top, worker, recheck), First(x)), ran)
            && Replay(before, ran.ops).summary == WholeSummary(worker)
  {
    hide Setup, AllWell, Launch, LandsAnyway, Gated, Contract.Intact, Contract.ManifestOf, CaseOutside, Observed;
    hide Replay;
    var x := CaseSetting(top, dirty, other);
    var w, env := CaseOutside(top, x), CaseEnv(top, worker, recheck);
    CaseSetUp(top, dirty, other);
    CaseWell(top, dirty, other, worker, recheck);
    CaseAdmits(top, worker, recheck, Live(Elsewhere(w, First(x))));
    assert StartOf(w, env, First(x)).declared == [];
    MomentsDecide(x, w, env, worker, before);
  }

  /** A live edit that stood only at the snapshot: the run publishes a pass and lands a change to a
      protected test of the tree it was packed from. */
  lemma DirtySnapshotLands(before: EvidenceDir.Dir)
    ensures var ran := CaseRun("tests", TreeOf("tests", 2), Patch("tests"), PASSED, GREEN, before);
            && ran.r.landed && Live(ran.s) == TreeOf("tests", 2)
            && Replay(before, ran.ops).summary == WholeSummary(PASSED)
            && !Contract.Keeps(TreeOf("tests", 1), [], Contract.ManifestOf(Live(ran.s), []), [])
  {
    hide Patch, CaseRun, Contract.ManifestOf, Contract.Keeps, Replay;
    ContractBroken();
    CaseLands("tests", TreeOf("tests", 2), Patch("tests"), PASSED, GREEN, before);
  }

  /** A staged file that held other bytes only at the upload: the fresh check is green for bytes that
      are not the patch, and the patch lands as a pass. */
  lemma OtherBytesChecked(other: Bytes, before: EvidenceDir.Dir)
    requires other != Patch("docs")
    ensures var ran := CaseRun("docs", TreeOf("docs", 1), other, PASSED, GREEN, before);
            && ran.r.landed && ran.r.recheck == Some(0) && ran.r.upload == Some(other)
            && Live(ran.s) == TreeOf("docs", 2) && Replay(before, ran.ops).summary == WholeSummary(PASSED)
  {
    hide Patch, CaseRun, Replay, TreeOf, Contract.Intact, Contract.ManifestOf, CaseOutside, CaseEnv;
    DocumentIntact();
    CaseLands("docs", TreeOf("docs", 1), other, PASSED, GREEN, before);
  }

  /** A worker that claims code 0 and a failed verifier: its patch lands, and no pass is published. */
  lemma NonPassLands(before: EvidenceDir.Dir)
    ensures var ran := CaseRun("docs", TreeOf("docs", 1), Patch("docs"), CLAIMED, GREEN, before);
            && ran.r.landed && Live(ran.s) == TreeOf("docs", 2)
            && Replay(before, ran.ops).summary == WholeSummary(CLAIMED) && Classify(CLAIMED) != Passed
  {
    hide Patch, CaseRun, Replay, TreeOf, Contract.Intact, Contract.ManifestOf, CaseOutside, CaseEnv;
    DocumentIntact();
    CaseLands("docs", TreeOf("docs", 1), Patch("docs"), CLAIMED, GREEN, before);
  }

  /** A fresh Job that never completed: its exit code 0 counts, and the patch lands as a pass. */
  lemma UncompletedCheckLands(before: EvidenceDir.Dir)
    ensures var ran := CaseRun("docs", TreeOf("docs", 1), Patch("docs"), PASSED, UNCOMPLETED, before);
            && !UNCOMPLETED.completed && ran.r.recheck == Some(0) && ran.r.landed
            && Replay(before, ran.ops).summary == WholeSummary(PASSED)
  {
    hide Patch, CaseRun, Replay, TreeOf, Contract.Intact, Contract.ManifestOf, CaseOutside, CaseEnv;
    DocumentIntact();
    CaseLands("docs", TreeOf("docs", 1), Patch("docs"), PASSED, UNCOMPLETED, before);
  }
}
