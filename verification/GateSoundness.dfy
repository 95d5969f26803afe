/** The gate against the structured patch: which patches it accepts, and when acceptance means safety
    (launcher/patchgate.py:167-225). */
module GateSoundness {
  import opened Text
  import GitQuote
  import opened PatchGate
  import opened StructuredPatch

  // ---------------------------------------------------------------- the scan, block by block

  ghost predicate Quiet(kinds: seq<Kind>, current: Option<Bytes>) {
    forall k | k in kinds :: KindViolations(k, current) == []
  }

  lemma {:induction false} KindsConcat(a: seq<string>, b: seq<string>)
    ensures Kinds(a + b) == Kinds(a) + Kinds(b)
  {
    if a == [] {
      assert a + b == b;
    } else {
      assert (a + b)[0] == a[0] && (a + b)[1..] == a[1..] + b;
      KindsConcat(a[1..], b);
    }
  }

  /** A block without headers is scanned line by line and leaves the path list alone. */
  lemma {:induction false} ScanBlock(block: seq<Kind>, rest: seq<Kind>, paths: seq<Bytes>, current: Option<Bytes>)
    requires Header !in block && HeaderCount(rest) <= |paths|
    ensures HeaderCount(block + rest) == HeaderCount(rest)
    ensures Scan(block + rest, paths, current) == [] <==> Quiet(block, current) && Scan(rest, paths, current) == []
  {
    if block == [] {
      assert block + rest == rest;
    } else {
      var tail := block[1..] + rest;
      assert block + rest == [block[0]] + tail;
      ScanBlock(block[1..], rest, paths, current);
      ScanLine(block[0], tail, paths, current);
      assert forall k :: k in block <==> k == block[0] || k in block[1..];
    }
  }

  lemma ScanLine(kind: Kind, rest: seq<Kind>, paths: seq<Bytes>, current: Option<Bytes>)
    requires kind != Header && HeaderCount(rest) <= |paths|
    ensures HeaderCount([kind] + rest) == HeaderCount(rest)
    ensures Scan([kind] + rest, paths, current) == [] <==>
            KindViolations(kind, current) == [] && Scan(rest, paths, current) == []
  {
    CountStep(kind, rest);
    assert ([kind] + rest)[1..] == rest;
  }

  lemma {:induction false} ScanPatch(p: seq<Section>, current: Option<Bytes>)
    requires GoodPatch(p)
    ensures |Dests(p)| == |p| == HeaderCount(Kinds(Lines(p) + [""]))
    ensures Scan(Kinds(Lines(p) + [""]), Dests(p), current) == []
            <==> forall s | s in p :: Quiet(Kinds(BodyLines(s)), Some(Dest(s.change)))
  {
    if p == [] {
      EmptyLine();
      KindsOne("");
    } else {
      var s, rest := p[0], p[1..];
      var body, tail := Kinds(BodyLines(s)), Kinds(Lines(rest) + [""]);
      ScanPatch(rest, Some(Dest(s.change)));
      PatchKinds(p);
      NoHeaders(s);
      CountStep(Header, body + tail);
      ScanBlock(body, tail, Dests(rest), Some(Dest(s.change)));
      assert Dests(p)[0] == Dest(s.change) && Dests(p)[1..] == Dests(rest);
      ScanHeader(body + tail, Dests(p), current);
      assert forall t :: t in p <==> t == s || t in rest;
    }
  }

  lemma Regroup<T>(a: seq<T>, b: seq<T>, c: seq<T>, d: seq<T>)
    ensures a + b + c + d == a + (b + (c + d))
  {
  }

  lemma PatchKinds(p: seq<Section>)
    requires p != []
    ensures Kinds(Lines(p) + [""]) == [Header] + (Kinds(BodyLines(p[0])) + Kinds(Lines(p[1..]) + [""]))
  {
    var header, body, tail := "diff --git " + p[0].title, BodyLines(p[0]), Lines(p[1..]) + [""];
    Regroup([header], body, Lines(p[1..]), [""]);
    KindsConcat([header], body + tail);
    KindsConcat(body, tail);
    HeaderLine(p[0].title);
    KindsOne(header);
  }

  lemma ScanHeader(rest: seq<Kind>, paths: seq<Bytes>, current: Option<Bytes>)
    requires HeaderCount([Header] + rest) <= |paths|
    ensures 1 <= |paths| && HeaderCount(rest) <= |paths[1..]|
    ensures Scan([Header] + rest, paths, current) == Scan(rest, paths[1..], Some(paths[0]))
  {
    CountStep(Header, rest);
    assert ([Header] + rest)[1..] == rest;
  }

  lemma EmptyLine()
    ensures Classify("") == Plain
  {
  }

  lemma HeaderLine(title: string)
    ensures Classify("diff --git " + title) == Header
  {
    assert ("diff --git " + title)[..11] == "diff --git ";
  }

  // ---------------------------------------------------------------- what a section's lines classify as

  function ModeKinds(c: Change): seq<Kind> {
    match c
    case Add(_, m) => [ModeKind(m)]
    case Delete(_, m) => [ModeKind(m)]
    case _ => if OldMode(c) == NewMode(c) then [] else [ModeKind(OldMode(c)), ModeKind(NewMode(c))]
  }

  function EndpointKinds(c: Change): seq<Kind> {
    match c
    case Rename(source, dest, _, _) => [Plain, Endpoint(GitQuote.Printed(source)), Endpoint(GitQuote.Printed(dest))]
    case Copy(source, dest, _, _) => [Plain, Endpoint(GitQuote.Printed(source)), Endpoint(GitQuote.Printed(dest))]
    case _ => []
  }

  function IndexKinds(s: Section): seq<Kind> {
    if s.change.Add? || s.change.Delete? then [Plain]
    else if !s.edited then []
    else if OldMode(s.change) == NewMode(s.change) then [ModeKind(NewMode(s.change))]
    else [Plain]
  }

  lemma KindsOne(l: string)
    ensures Kinds([l]) == [Classify(l)]
  {
    assert Kinds([l][1..]) == [];
  }

  lemma KindsTwo(l: string, m: string)
    ensures Kinds([l, m]) == [Classify(l), Classify(m)]
  {
    KindsOne(m);
    assert [l, m][1..] == [m];
  }

  lemma ModeLinesKinds(c: Change)
    ensures Kinds(ModeLines(c)) == ModeKinds(c)
  {
    match c {
      case Add(_, m) =>
        NewFileLine(m);
        KindsOne("new file mode " + ModeText(m));
      case Delete(_, m) =>
        DeletedFileLine(m);
        KindsOne("deleted file mode " + ModeText(m));
      case _ =>
        OldModeLine(OldMode(c));
        NewModeLine(NewMode(c));
        KindsTwo("old mode " + ModeText(OldMode(c)), "new mode " + ModeText(NewMode(c)));
    }
  }

  lemma FilePaths(s: Section)
    requires GoodSection(s)
    ensures Source(s.change) != [] && Dest(s.change) != []
  {
  }

  lemma EndpointLinesKinds(s: Section)
    requires GoodSection(s)
    ensures Kinds(EndpointLines(s)) == EndpointKinds(s.change)
  {
    hide GitQuote.Printed, Classify, GoodSection;
    FilePaths(s);
    if s.change.Rename? || s.change.Copy? {
      var from, to := GitQuote.Printed(s.change.source), GitQuote.Printed(s.change.dest);
      PrintedLine(s.change.source);
      PrintedLine(s.change.dest);
      var score := "similarity index " + s.score;
      SimilarityLine(s.score);
      if s.change.Rename? {
        EndpointLine("rename from ", from);
        EndpointLine("rename to ", to);
        KindsTwo("rename from " + from, "rename to " + to);
        assert EndpointLines(s)[1..] == ["rename from " + from, "rename to " + to];
      } else {
        EndpointLine("copy from ", from);
        EndpointLine("copy to ", to);
        KindsTwo("copy from " + from, "copy to " + to);
        assert EndpointLines(s)[1..] == ["copy from " + from, "copy to " + to];
      }
    }
  }

  lemma SimilarityLine(score: string)
    ensures Classify("similarity index " + score) == Plain
  {
    var l := "similarity index " + score;
    TextLine(l);
    Differs(l, "--- ", 0);
    Differs(l, "+++ ", 0);
  }

  lemma BareIndexLine(hashes: string)
    requires hashes != "" && forall c | c in hashes :: !IsSpace(c)
    ensures Classify("index " + hashes) == Plain
  {
    IndexLine(hashes, "");
    assert "index " + hashes + "" == "index " + hashes;
  }

  lemma IndexLinesKinds(s: Section)
    requires GoodSection(s)
    ensures Kinds(IndexLines(s)) == IndexKinds(s)
  {
    var m := NewMode(s.change);
    BareIndexLine(s.hashes);
    assert Classify("index " + s.hashes + (" " + ModeText(m))) == ModeKind(m) by {
      IndexLine(s.hashes, " " + ModeText(m));
      IndexMode(m);
    }
    KindsOne("index " + s.hashes);
    KindsOne("index " + s.hashes + (" " + ModeText(m)));
  }

  /** A content line never carries a file header, an endpoint or a mode. */
  predicate TextKind(k: Kind) {
    k == Plain || k.OldNew?
  }

  lemma NameLine(mark: string, name: string)
    requires mark in {"--- ", "+++ "}
    ensures TextKind(Classify(mark + name))
  {
    TextLine(mark + name);
  }

  lemma {:induction false} HunkLinesKinds(hunks: seq<Hunk>)
    requires forall h | h in hunks :: GoodHunk(h)
    ensures forall l | l in HunkLines(hunks) :: OneLine(l) && TextKind(Classify(l))
  {
    if hunks != [] {
      assert GoodHunk(hunks[0]);
      TextLine("@@ " + hunks[0].range);
      forall l | l in hunks[0].lines ensures OneLine(l) && TextKind(Classify(l)) {
        TextLine(l);
      }
      HunkLinesKinds(hunks[1..]);
    }
  }

  lemma {:induction false} KindsOfAll(lines: seq<string>)
    requires forall l | l in lines :: TextKind(Classify(l))
    ensures forall k | k in Kinds(lines) :: TextKind(k)
  {
    if lines != [] {
      KindsOfAll(lines[1..]);
    }
  }

  lemma TextBlock(a: string, b: string, rest: seq<string>)
    requires OneLine(a) && OneLine(b) && TextKind(Classify(a)) && TextKind(Classify(b))
    requires forall l | l in rest :: OneLine(l) && TextKind(Classify(l))
    ensures forall l | l in [a, b] + rest :: OneLine(l)
    ensures forall k | k in Kinds([a, b] + rest) :: TextKind(k)
  {
    KindsOfAll([a, b] + rest);
  }

  lemma ContentLinesKinds(s: Section)
    requires GoodSection(s)
    ensures forall k | k in Kinds(ContentLines(s)) :: TextKind(k)
    ensures forall l | l in ContentLines(s) :: OneLine(l)
  {
    if s.hunks != [] {
      var oldLine, newLine, hunks := "--- " + s.oldName, "+++ " + s.newName, HunkLines(s.hunks);
      NameLine("--- ", s.oldName);
      NameLine("+++ ", s.newName);
      HunkLinesKinds(s.hunks);
      TextBlock(oldLine, newLine, hunks);
    }
  }

  /** The kinds of a section's lines after its header, by their three structural parts and its text. */
  lemma SectionKinds(s: Section)
    requires GoodSection(s)
    ensures Kinds(BodyLines(s)) ==
            ModeKinds(s.change) + EndpointKinds(s.change) + IndexKinds(s) + Kinds(ContentLines(s))
  {
    var a, b, c, d := ModeLines(s.change), EndpointLines(s), IndexLines(s), ContentLines(s);
    KindsConcat(a + b + c, d);
    KindsConcat(a + b, c);
    KindsConcat(a, b);
    ModeLinesKinds(s.change);
    EndpointLinesKinds(s);
    IndexLinesKinds(s);
  }

  lemma NoHeaders(s: Section)
    requires GoodSection(s)
    ensures Header !in Kinds(BodyLines(s))
  {
    hide GoodSection, Kinds, BodyLines, ContentLines;
    SectionKinds(s);
    ContentLinesKinds(s);
    assert Header !in ModeKinds(s.change) && Header !in EndpointKinds(s.change) && Header !in IndexKinds(s);
  }

  // ---------------------------------------------------------------- no line holds a newline

  lemma QuotedByteOneLine(b: Byte)
    ensures OneLine(GitQuote.QuoteByte(b)) && GitQuote.QuoteByte(b) != ""
  {
  }

  lemma {:induction false} QuotedBodyOneLine(path: Bytes)
    ensures OneLine(GitQuote.QuoteBody(path))
    ensures path != [] ==> GitQuote.QuoteBody(path) != ""
  {
    if path != [] {
      QuotedByteOneLine(path[0]);
      QuotedBodyOneLine(path[1..]);
    }
  }

  lemma PrintedLine(path: Bytes)
    requires path != []
    ensures OneLine(GitQuote.Printed(path)) && GitQuote.Printed(path) != ""
  {
    QuotedBodyOneLine(path);
  }

  lemma ModeTextOneLine(words: string, m: Mode)
    requires OneLine(words)
    ensures OneLine(words + ModeText(m))
  {
  }

  lemma ModeLinesOneLine(c: Change)
    ensures forall l | l in ModeLines(c) :: OneLine(l)
  {
    ModeTextOneLine("new file mode ", NewMode(c));
    ModeTextOneLine("deleted file mode ", NewMode(c));
    ModeTextOneLine("old mode ", OldMode(c));
    ModeTextOneLine("new mode ", NewMode(c));
  }

  lemma EndpointLinesOneLine(s: Section)
    requires GoodSection(s)
    ensures forall l | l in EndpointLines(s) :: OneLine(l)
  {
    hide GitQuote.Printed;
    if s.change.Rename? || s.change.Copy? {
      PrintedLine(s.change.source);
      PrintedLine(s.change.dest);
    }
  }

  lemma SectionOneLine(s: Section)
    requires GoodSection(s)
    ensures forall l | l in BodyLines(s) :: OneLine(l)
  {
    ModeLinesOneLine(s.change);
    ContentLinesKinds(s);
    EndpointLinesOneLine(s);
    assert forall l | l in IndexLines(s) :: OneLine(l) by {
      ModeTextOneLine(" ", NewMode(s.change));
    }
  }

  lemma {:induction false} PatchOneLine(p: seq<Section>)
    requires GoodPatch(p)
    ensures forall l | l in Lines(p) :: OneLine(l)
  {
    if p != [] {
      SectionOneLine(p[0]);
      PatchOneLine(p[1..]);
    }
  }

  // ---------------------------------------------------------------- what the gate decides

  ghost predicate Accepts(p: seq<Section>) {
    Gate(Render(p), Some(Dests(p))) == Reports([])
  }

  ghost predicate SectionAccepted(s: Section) {
    Judge(Dest(s.change)) == [] && Quiet(Kinds(BodyLines(s)), Some(Dest(s.change)))
  }

  lemma {:induction false} PathsQuiet(p: seq<Section>)
    ensures PathsViolations(Dests(p)) == [] <==> forall s | s in p :: Judge(Dest(s.change)) == []
  {
    if p != [] {
      PathsQuiet(p[1..]);
      assert Dests(p)[1..] == Dests(p[1..]);
      assert forall t :: t in p <==> t == p[0] || t in p[1..];
    }
  }

  lemma DedupEmpty<T(!new)>(xs: seq<T>)
    ensures Dedup(xs) == [] <==> xs == []
  {
    if xs != [] {
      assert xs[0] in Dedup(xs);
    }
  }

  /** The gate on the rendered text decides each section on its own, whatever its hunks contain. */
  lemma GateDecides(p: seq<Section>)
    requires GoodPatch(p)
    ensures Accepts(p) <==> forall s | s in p :: SectionAccepted(s)
  {
    var kinds, paths := Kinds(Lines(p) + [""]), Dests(p);
    PatchOneLine(p);
    SplitUnlines(Lines(p), NEWLINE);
    ScanPatch(p, None);
    PathsQuiet(p);
    var scanned, judged := Scan(kinds, paths, None), PathsViolations(paths);
    assert Gate(Render(p), Some(paths)) == if BadQuoting in scanned then Raises else Reports(Dedup(scanned + judged));
    DedupEmpty(scanned + judged);
    assert scanned + judged == [] <==> scanned == [] && judged == [];
  }

  // ---------------------------------------------------------------- the rule the gate applies to one section

  ghost predicate EndpointsClean(c: Change) {
    c.Rename? || c.Copy? ==>
      && EndpointViolations(GitQuote.Printed(c.source)) == []
      && EndpointViolations(GitQuote.Printed(c.dest)) == []
  }

  predicate ShownLink(s: Section) {
    (LinkMode(OldMode(s.change)) || LinkMode(NewMode(s.change))) && !SilentLink(s)
  }

  lemma ModesQuiet(s: Section, current: Option<Bytes>)
    requires GoodSection(s) && current.Some? && current.value != []
    ensures Quiet(ModeKinds(s.change) + IndexKinds(s), current) <==> !ShownLink(s)
  {
    var c, kinds := s.change, ModeKinds(s.change) + IndexKinds(s);
    ModeQuiet(OldMode(c), current);
    ModeQuiet(NewMode(c), current);
    if c.Add? || c.Delete? {
      assert kinds == [ModeKind(c.mode), Plain];
      assert kinds[0] in kinds;
    } else if OldMode(c) != NewMode(c) {
      assert kinds[0] == ModeKind(OldMode(c)) && kinds[1] == ModeKind(NewMode(c));
      assert kinds[0] in kinds && kinds[1] in kinds;
    } else if s.edited {
      assert kinds == [ModeKind(NewMode(c))];
      assert kinds[0] in kinds;
    }
  }

  lemma ModeQuiet(m: Mode, current: Option<Bytes>)
    requires current.Some? && current.value != []
    ensures KindViolations(ModeKind(m), current) == [] <==> !LinkMode(m)
  {
  }

  lemma PairQuiet(a: Kind, b: Kind, current: Option<Bytes>)
    ensures Quiet([Plain, a, b], current) <==> KindViolations(a, current) == [] && KindViolations(b, current) == []
  {
    hide KindViolations;
    PlainQuiet(current);
    var kinds := [Plain, a, b];
    assert kinds[1] in kinds && kinds[2] in kinds;
  }

  lemma PlainQuiet(current: Option<Bytes>)
    ensures KindViolations(Plain, current) == []
  {
  }

  lemma EndpointQuiet(text: string, current: Option<Bytes>)
    ensures KindViolations(Endpoint(text), current) == EndpointViolations(text)
  {
  }

  lemma EndpointPairQuiet(source: string, dest: string, current: Option<Bytes>)
    ensures Quiet([Plain, Endpoint(source), Endpoint(dest)], current) <==>
            EndpointViolations(source) == [] && EndpointViolations(dest) == []
  {
    PairQuiet(Endpoint(source), Endpoint(dest), current);
    EndpointQuiet(source, current);
    EndpointQuiet(dest, current);
  }

  lemma EndpointsQuiet(c: Change, current: Option<Bytes>)
    ensures Quiet(EndpointKinds(c), current) <==> EndpointsClean(c)
  {
    if c.Rename? || c.Copy? {
      EndpointPairQuiet(GitQuote.Printed(c.source), GitQuote.Printed(c.dest), current);
    }
  }

  /** A section passes exactly when its parsed path and both endpoints pass, it shows no link mode,
      and no name or content line reads as a bad `---` or `+++` name. */
  lemma SectionRule(s: Section)
    requires GoodSection(s)
    ensures SectionAccepted(s) <==>
            && Judge(Dest(s.change)) == [] && EndpointsClean(s.change) && !ShownLink(s)
            && Quiet(Kinds(ContentLines(s)), Some(Dest(s.change)))
  {
    var current := Some(Dest(s.change));
    SectionKinds(s);
    EndpointsQuiet(s.change, current);
    ModesQuiet(s, current);
    var a, b, c, d := ModeKinds(s.change), EndpointKinds(s.change), IndexKinds(s), Kinds(ContentLines(s));
    assert forall k :: k in a + b + c + d <==> k in a + c || k in b || k in d;
  }

  // ---------------------------------------------------------------- what the path checks mean

  lemma ZoneNames(zone: Bytes)
    requires zone in ZONES
    ensures zone != [] && SLASH !in zone && zone[0] != 0x20
  {
  }

  lemma {:induction false} SplitFirst(path: Bytes)
    requires |Split(path, SLASH)| >= 2
    ensures var first := Split(path, SLASH)[0];
            |first| < |path| && path == first + [SLASH] + path[|first| + 1..]
  {
    if path[0] != SLASH {
      SplitFirst(path[1..]);
      var first := Split(path[1..], SLASH)[0];
      assert path == [path[0]] + path[1..];
      assert Split(path, SLASH)[0] == [path[0]] + first;
      assert path[1..][|first| + 1..] == path[|first| + 2..];
    } else {
      assert path == [] + [SLASH] + path[1..];
    }
  }

  /** The checks on one path decide confinement, in both directions. */
  lemma JudgeDecides(path: Bytes)
    ensures Judge(path) == [] <==> InZone(path)
  {
    var segments := Split(path, SLASH);
    if Judge(path) == [] {
      assert ZoneViolation(path) == [];
      SplitFirst(path);
      ZoneNames(segments[0]);
      assert path != DEV_NULL;
      assert DOT_DOT !in segments && DOT_GIT !in segments;
    }
    if InZone(path) {
      var zone, rest :| zone in ZONES && path == zone + [SLASH] + rest;
      ZoneNames(zone);
      SplitHead(zone, rest, SLASH);
      assert path[0] == zone[0] && zone[0] != SLASH;
    }
  }

  /** For the name of a file, in a zone is strictly below it. */
  lemma BelowZone(path: Bytes)
    requires FilePath(path)
    ensures Confined(path) <==> InZone(path)
  {
    if InZone(path) {
      var zone, rest :| zone in ZONES && path == zone + [SLASH] + rest;
      assert path[|zone|] == SLASH;
    }
  }

  lemma {:induction false} SplitTail(path: Bytes, tail: Bytes)
    requires SLASH !in tail
    ensures var a, b := Split(path, SLASH), Split(path + tail, SLASH);
            b == a[..|a| - 1] + [a[|a| - 1] + tail]
  {
    if path == [] {
      assert path + tail == tail;
      SplitWhole(tail, SLASH);
    } else {
      assert (path + tail)[0] == path[0] && (path + tail)[1..] == path[1..] + tail;
      SplitTail(path[1..], tail);
      var a := Split(path[1..], SLASH);
      if path[0] != SLASH && |a| == 1 {
        assert [path[0]] + (a[0] + tail) == [path[0]] + a[0] + tail;
      }
    }
  }

  /** Spaces after a confined path leave it confined. */
  lemma BlanksAfter(path: Bytes, blanks: Bytes)
    requires InZone(path) && forall b | b in blanks :: b == 0x20
    ensures InZone(path + blanks)
  {
    var zone, rest :| zone in ZONES && path == zone + [SLASH] + rest;
    assert path + blanks == zone + [SLASH] + (rest + blanks);
    SplitTail(path, blanks);
    var a, b := Split(path, SLASH), Split(path + blanks, SLASH);
    var last := a[|a| - 1];
    if blanks == [] {
      assert path + blanks == path;
    } else {
      assert blanks[|blanks| - 1] in blanks;
      assert (last + blanks)[|last + blanks| - 1] == 0x20;
      assert forall f | f in b :: f in a || f == last + blanks;
    }
  }

  lemma BlanksBefore(path: Bytes)
    requires path != [] && path[0] == 0x20
    ensures !InZone(path)
  {
    forall zone, rest: Bytes | zone in ZONES ensures path != zone + [SLASH] + rest {
      ZoneNames(zone);
      assert (zone + [SLASH] + rest)[0] == zone[0];
    }
  }

  lemma InZoneNotEmpty(path: Bytes)
    requires InZone(path)
    ensures path != []
  {
  }

  /** An endpoint the gate accepts is confined, unless git printed it bare with a space in front. */
  lemma EndpointMeaning(path: Bytes)
    requires path != [] && EndpointViolations(GitQuote.Printed(path)) == []
    ensures InZone(path) <==> !(GitQuote.Bare(path) && path[0] == 0x20)
  {
    if GitQuote.Bare(path) {
      BareEndpointMeaning(path);
    } else {
      GitQuote.UnquoteOfQuoted(path);
      JudgeDecides(path);
    }
  }

  lemma AcceptedEndpoint(text: string, path: Bytes)
    requires GitQuote.Unquote(text) == Some(path) && EndpointViolations(text) == []
    ensures InZone(path)
  {
    JudgeDecides(path);
  }

  lemma BareEndpointMeaning(path: Bytes)
    requires path != [] && GitQuote.Bare(path) && EndpointViolations(GitQuote.QuoteBody(path)) == []
    ensures InZone(path) <==> path[0] != 0x20
  {
    var lo, hi := GitQuote.BareEndpoint(path);
    AcceptedEndpoint(GitQuote.QuoteBody(path), path[lo..hi]);
    BlanksAround(path, lo, hi);
  }

  lemma BlanksAround(path: Bytes, lo: nat, hi: nat)
    requires path != [] && lo <= hi <= |path| && InZone(path[lo..hi])
    requires forall i | 0 <= i < lo || hi <= i < |path| :: path[i] == 0x20
    requires lo < hi ==> path[lo] != 0x20
    ensures InZone(path) <==> path[0] != 0x20
  {
    var inner := path[lo..hi];
    InZoneNotEmpty(inner);
    if lo == 0 {
      assert path == inner + path[hi..];
      BlanksAfter(inner, path[hi..]);
    } else {
      BlanksBefore(path);
    }
  }

  // ---------------------------------------------------------------- acceptance and safety

  /** An accepted section is safe exactly when its source is not printed with a space in front and
      it is not a rename or copy that moves a link without printing its mode. */
  lemma SectionSafety(s: Section)
    requires GoodSection(s) && SectionAccepted(s)
    ensures Safe(s) <==> !BlankSource(s) && !SilentLink(s)
  {
    SectionRule(s);
    JudgeDecides(Dest(s.change));
    BelowZone(Dest(s.change));
    BelowZone(Source(s.change));
    if s.change.Rename? || s.change.Copy? {
      EndpointMeaning(s.change.source);
    }
  }

  /** Gate soundness with its exact condition: for every patch git can print, acceptance means that
      the whole patch is safe if and only if no section is one of the two kinds the text hides. */
  lemma GateSoundness(p: seq<Section>)
    requires GoodPatch(p) && Accepts(p)
    ensures (forall s | s in p :: Safe(s)) <==> (forall s | s in p :: !BlankSource(s) && !SilentLink(s))
  {
    GateDecides(p);
    forall s | s in p ensures Safe(s) <==> !BlankSource(s) && !SilentLink(s) {
      SectionSafety(s);
    }
  }

  // ---------------------------------------------------------------- the two families are accepted

  predicate Tight(path: Bytes) {
    GitQuote.Bare(path) && FilePath(path) && path[0] != 0x20 && path[|path| - 1] != 0x20
  }

  lemma CleanEndpoint(text: string, path: Bytes)
    requires GitQuote.Unquote(text) == Some(path) && InZone(path)
    ensures EndpointViolations(text) == []
  {
    JudgeDecides(path);
  }

  lemma TrimmedSpan(whole: Bytes, n: nat, lo: nat, hi: nat)
    requires n < |whole| && lo <= hi <= |whole|
    requires forall i | 0 <= i < n :: whole[i] == 0x20
    requires whole[n] != 0x20 && whole[|whole| - 1] != 0x20
    requires forall i | 0 <= i < lo || hi <= i < |whole| :: whole[i] == 0x20
    requires lo < hi ==> whole[lo] != 0x20
    ensures lo == n && hi == |whole|
  {
    assert lo <= n < hi;
  }

  lemma PaddedBlanks(blanks: Bytes, path: Bytes)
    requires Tight(path) && forall b | b in blanks :: b == 0x20
    ensures GitQuote.Bare(blanks + path)
    ensures forall i | 0 <= i < |blanks| :: (blanks + path)[i] == 0x20
  {
    forall i | 0 <= i < |blanks| ensures (blanks + path)[i] == 0x20 {
      assert blanks[i] in blanks;
    }
  }

  lemma PaddedUnquote(whole: Bytes, n: nat)
    requires GitQuote.Bare(whole) && n < |whole|
    requires forall i | 0 <= i < n :: whole[i] == 0x20
    requires whole[n] != 0x20 && whole[|whole| - 1] != 0x20
    ensures GitQuote.Unquote(GitQuote.QuoteBody(whole)) == Some(whole[n..])
  {
    hide GitQuote.Unquote;
    var lo, hi := GitQuote.BareEndpoint(whole);
    TrimmedSpan(whole, n, lo, hi);
    assert whole[n..|whole|] == whole[n..];
  }

  /** A confined bare path passes as an endpoint whatever spaces stand in front of it. */
  lemma PaddedEndpoint(blanks: Bytes, path: Bytes)
    requires Tight(path) && InZone(path) && forall b | b in blanks :: b == 0x20
    ensures EndpointViolations(GitQuote.Printed(blanks + path)) == []
  {
    var whole := blanks + path;
    PaddedBlanks(blanks, path);
    PaddedUnquote(whole, |blanks|);
    assert whole[|blanks|..] == path;
    CleanEndpoint(GitQuote.QuoteBody(whole), path);
  }

  lemma PaddedConfined(blanks: Bytes, path: Bytes)
    requires Tight(path) && InZone(path) && forall b | b in blanks :: b == 0x20
    ensures InZone(blanks + path) <==> blanks == []
  {
    if blanks == [] {
      assert blanks + path == path;
    } else {
      assert blanks[0] in blanks && (blanks + path)[0] == blanks[0];
      BlanksBefore(blanks + path);
    }
  }

  function PlainRename(source: Bytes, dest: Bytes, mode: Mode): Section {
    Section(Rename(source, dest, mode, mode), "", "0..1", false, "100%", "", "", [])
  }

  /** Any pure rename between confined bare paths is accepted, whatever its mode and whatever spaces
      stand before its source. */
  lemma HiddenRenameAccepted(blanks: Bytes, source: Bytes, dest: Bytes, mode: Mode)
    requires Tight(source) && Confined(source) && Tight(dest) && Confined(dest)
    requires forall b | b in blanks :: b == 0x20
    ensures SectionAccepted(PlainRename(blanks + source, dest, mode))
  {
    var change := Rename(blanks + source, dest, mode, mode);
    hide InZone, Confined, Tight;
    NamesFile(source);
    NamesFile(dest);
    PaddedRename(change, blanks, source);
    PaddedFile(blanks, source);
    RenameAccepted(change.source, dest, mode);
  }

  lemma NamesFile(path: Bytes)
    requires Tight(path) && Confined(path)
    ensures FilePath(path) && InZone(path)
  {
    BelowZone(path);
  }

  lemma PaddedFile(blanks: Bytes, path: Bytes)
    requires FilePath(path)
    ensures FilePath(blanks + path)
  {
  }

  /** Such a rename is safe only without those spaces and with an ordinary mode. */
  lemma HiddenRenameSafety(blanks: Bytes, source: Bytes, dest: Bytes, mode: Mode)
    requires Tight(source) && Confined(source) && Tight(dest) && Confined(dest)
    requires forall b | b in blanks :: b == 0x20
    ensures Safe(PlainRename(blanks + source, dest, mode)) <==> blanks == [] && !LinkMode(mode)
  {
    hide InZone, Confined, Tight;
    NamesFile(source);
    PaddedFile(blanks, source);
    BelowZone(blanks + source);
    PaddedConfined(blanks, source);
  }

  lemma PaddedRename(c: Change, blanks: Bytes, source: Bytes)
    requires c.Rename? && c.source == blanks + source
    requires Tight(source) && InZone(source) && Tight(c.dest) && InZone(c.dest)
    requires forall b | b in blanks :: b == 0x20
    ensures EndpointsClean(c)
  {
    hide InZone, Tight, EndpointViolations;
    PaddedEndpoint(blanks, source);
    PaddedEndpoint([], c.dest);
    assert [] + c.dest == c.dest;
  }

  lemma RenameAccepted(source: Bytes, dest: Bytes, mode: Mode)
    requires FilePath(source) && FilePath(dest) && InZone(dest) && EndpointsClean(Rename(source, dest, mode, mode))
    ensures SectionAccepted(PlainRename(source, dest, mode))
  {
    hide EndpointViolations, InZone, Judge, SectionAccepted;
    JudgeDecides(dest);
    AcceptedByRule(PlainRename(source, dest, mode));
  }

  lemma AcceptedByRule(s: Section)
    requires GoodSection(s) && Judge(Dest(s.change)) == [] && EndpointsClean(s.change)
    requires !ShownLink(s) && s.hunks == []
    ensures SectionAccepted(s)
  {
    SectionRule(s);
  }

  /** One instance of each: ` src/a` renamed to `src/b`, and the symlink `src/a` renamed to `src/b`. */
  lemma UnsafeRenamesAccepted()
    ensures var s := PlainRename([0x20] + Ascii("src/a"), Ascii("src/b"), Regular); SectionAccepted(s) && !Safe(s)
    ensures var s := PlainRename([] + Ascii("src/a"), Ascii("src/b"), Link); SectionAccepted(s) && !Safe(s)
  {
    hide SectionAccepted, Safe, Confined, Tight;
    SampleConfined(Ascii("src"), Ascii("a"));
    SampleConfined(Ascii("src"), Ascii("b"));
    var a, b := Ascii("src") + [SLASH] + Ascii("a"), Ascii("src") + [SLASH] + Ascii("b");
    assert a == Ascii("src/a") && b == Ascii("src/b");
    HiddenRenameAccepted([0x20], a, b, Regular);
    HiddenRenameSafety([0x20], a, b, Regular);
    HiddenRenameAccepted([], a, b, Link);
    HiddenRenameSafety([], a, b, Link);
  }

  lemma SampleConfined(zone: Bytes, name: Bytes)
    requires zone == Ascii("src") || zone == Ascii("tests") || zone == Ascii("docs")
    requires name == Ascii("a") || name == Ascii("b")
    ensures Confined(zone + [SLASH] + name) && Tight(zone + [SLASH] + name)
  {
    hide Confined;
    assert zone == ZONES[0] || zone == ZONES[1] || zone == ZONES[2];
    FileOfZone(zone, name);
  }

  lemma FileOfZone(zone: Bytes, name: Bytes)
    requires zone in ZONES && zone != DOT_DOT && zone != DOT_GIT && SLASH !in zone
    requires name != [] && name != DOT_DOT && name != DOT_GIT && SLASH !in name
    ensures Confined(zone + [SLASH] + name)
  {
    hide Split;
    SplitHead(zone, name, SLASH);
    SplitWhole(name, SLASH);
    assert Split(zone + [SLASH] + name, SLASH) == [zone, name];
  }
}
