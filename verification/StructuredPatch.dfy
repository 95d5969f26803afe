/** Patches as git means them, their rendering, and what the gate decides about every one of them
    (launcher/patchgate.py:152-225). */
module StructuredPatch {
  import opened Text
  import GitQuote
  import opened PatchGate

  datatype Mode = Regular | Executable | Link | Submodule

  function ModeText(m: Mode): string {
    match m
    case Regular => "100644"
    case Executable => "100755"
    case Link => "120000"
    case Submodule => "160000"
  }

  datatype Change =
    | Add(path: Bytes, mode: Mode)
    | Delete(path: Bytes, mode: Mode)
    | Modify(path: Bytes, oldMode: Mode, newMode: Mode)
    | Rename(source: Bytes, dest: Bytes, oldMode: Mode, newMode: Mode)
    | Copy(source: Bytes, dest: Bytes, oldMode: Mode, newMode: Mode)

  /** One hunk: the text after `@@ ` and its content lines, each with its leading mark. */
  datatype Hunk = Hunk(range: string, lines: seq<string>)

  /** One file section. `hashes` is the `old..new` token of the index line; `edited` says whether the
      content changes; `score` is the similarity text; the two names are what follows `---` and `+++`. */
  datatype Section = Section(change: Change, title: string, hashes: string, edited: bool, score: string,
                             oldName: string, newName: string, hunks: seq<Hunk>)

  function Source(c: Change): Bytes {
    if c.Rename? || c.Copy? then c.source else c.path
  }

  function Dest(c: Change): Bytes {
    if c.Rename? || c.Copy? then c.dest else c.path
  }

  function OldMode(c: Change): Mode {
    if c.Add? || c.Delete? then c.mode else c.oldMode
  }

  function NewMode(c: Change): Mode {
    if c.Add? || c.Delete? then c.mode else c.newMode
  }

  // ---------------------------------------------------------------- rendering

  function ModeLines(c: Change): seq<string> {
    match c
    case Add(_, m) => ["new file mode " + ModeText(m)]
    case Delete(_, m) => ["deleted file mode " + ModeText(m)]
    case _ => if OldMode(c) == NewMode(c) then []
              else ["old mode " + ModeText(OldMode(c)), "new mode " + ModeText(NewMode(c))]
  }

  function EndpointLines(s: Section): seq<string> {
    match s.change
    case Rename(source, dest, _, _) =>
      ["similarity index " + s.score, "rename from " + GitQuote.Printed(source), "rename to " + GitQuote.Printed(dest)]
    case Copy(source, dest, _, _) =>
      ["similarity index " + s.score, "copy from " + GitQuote.Printed(source), "copy to " + GitQuote.Printed(dest)]
    case _ => []
  }

  /** The index line carries the mode only when the mode does not change; git prints it for an added
      or deleted file and wherever the content changes. */
  function IndexLines(s: Section): seq<string> {
    if s.change.Add? || s.change.Delete? then ["index " + s.hashes]
    else if !s.edited then []
    else if OldMode(s.change) == NewMode(s.change) then ["index " + s.hashes + (" " + ModeText(NewMode(s.change)))]
    else ["index " + s.hashes]
  }

  function HunkLines(hunks: seq<Hunk>): seq<string> {
    if hunks == [] then [] else ["@@ " + hunks[0].range] + hunks[0].lines + HunkLines(hunks[1..])
  }

  /** The lines that carry content: file names and hunks. */
  function ContentLines(s: Section): seq<string> {
    if s.hunks == [] then []
    else ["--- " + s.oldName, "+++ " + s.newName] + HunkLines(s.hunks)
  }

  function BodyLines(s: Section): seq<string> {
    ModeLines(s.change) + EndpointLines(s) + IndexLines(s) + ContentLines(s)
  }

  function Lines(p: seq<Section>): seq<string> {
    if p == [] then [] else ["diff --git " + p[0].title] + BodyLines(p[0]) + Lines(p[1..])
  }

  function Render(p: seq<Section>): string {
    Unlines(Lines(p), NEWLINE)
  }

  function Dests(p: seq<Section>): seq<Bytes> {
    if p == [] then [] else [Dest(p[0].change)] + Dests(p[1..])
  }

  // ---------------------------------------------------------------- what git never prints

  predicate OneLine(s: string) { NEWLINE !in s }

  /** A content line: one of the four marks, then anything but a newline. */
  predicate ContentLine(l: string) {
    l != "" && l[0] in {' ', '+', '-', '\\'} && OneLine(l)
  }

  predicate GoodHunk(h: Hunk) {
    OneLine(h.range) && forall l | l in h.lines :: ContentLine(l)
  }

  /** A path as git names files: not empty, and not ending in a slash. */
  predicate FilePath(path: Bytes) {
    path != [] && path[|path| - 1] != SLASH
  }

  /** Paths name files, a file named in place changes in content or mode, texts are one line. */
  predicate GoodSection(s: Section) {
    && FilePath(Source(s.change)) && FilePath(Dest(s.change))
    && (s.change.Modify? ==> s.edited || s.change.oldMode != s.change.newMode)
    && OneLine(s.title) && OneLine(s.score) && OneLine(s.oldName) && OneLine(s.newName)
    && s.hashes != "" && OneLine(s.hashes) && (forall c | c in s.hashes :: !IsSpace(c))
    && forall h | h in s.hunks :: GoodHunk(h)
  }

  predicate GoodPatch(p: seq<Section>) {
    forall s | s in p :: GoodSection(s)
  }

  // ---------------------------------------------------------------- what a patch may touch

  /** Under a writable zone, relative, with no `..` and no `.git` component. */
  ghost predicate InZone(path: Bytes) {
    && (exists zone, rest :: zone in ZONES && path == zone + [SLASH] + rest)
    && DOT_DOT !in Split(path, SLASH) && DOT_GIT !in Split(path, SLASH)
  }

  /** The same, strictly below the zone. */
  ghost predicate Confined(path: Bytes) {
    && (exists zone, rest :: zone in ZONES && rest != [] && path == zone + [SLASH] + rest)
    && DOT_DOT !in Split(path, SLASH) && DOT_GIT !in Split(path, SLASH)
  }

  predicate LinkMode(m: Mode) {
    m == Link || m == Submodule
  }

  ghost predicate Safe(s: Section) {
    && Confined(Source(s.change)) && Confined(Dest(s.change))
    && !LinkMode(OldMode(s.change)) && !LinkMode(NewMode(s.change))
  }

  /** A rename or copy that changes neither content nor mode prints no mode at all. */
  predicate SilentLink(s: Section) {
    && (s.change.Rename? || s.change.Copy?) && !s.edited
    && OldMode(s.change) == NewMode(s.change) && LinkMode(NewMode(s.change))
  }

  /** A rename or copy source printed bare with a space in front, which the decoder drops. */
  predicate BlankSource(s: Section) {
    && (s.change.Rename? || s.change.Copy?)
    && GitQuote.Bare(s.change.source) && s.change.source != [] && s.change.source[0] == 0x20
  }

  // ---------------------------------------------------------------- how the rendered lines classify

  function ModeKind(m: Mode): Kind {
    match m
    case Link => Symlink
    case Submodule => Gitlink
    case _ => Plain
  }

  /** A line that begins with one of `o n d` but is no file header can only be a mode line. */
  lemma ModeLineKind(words: string, m: Mode)
    requires words != "" && words[0] in {'o', 'n', 'd'}
    requires !IsHeader(words + ModeText(m)) && !StartsWith(words + ModeText(m), "deleted mode ")
    requires ModeWords(words + ModeText(m)) == |words|
    ensures Classify(words + ModeText(m)) == ModeKind(m)
  {
    hide OldNewName, EndpointText, IsHeader;
    var l := words + ModeText(m);
    assert l[|words|..] == ModeText(m);
    OtherWords(l);
    assert ModeText(m)[2] == if m == Link || m == Submodule then '0' else ModeText(m)[2];
    assert StartsWith(ModeText(m), "120000") <==> m == Link by { if m != Link { Differs(ModeText(m), "120000", 1); } }
    assert StartsWith(ModeText(m), "160000") <==> m == Submodule by {
      if m != Submodule { Differs(ModeText(m), "160000", 1); }
    }
  }

  lemma OtherWords(l: string)
    requires l != "" && l[0] in {'o', 'n', 'd'}
    ensures OldNewName(l).None? && EndpointText(l).None?
    ensures !StartsWith(l, "index ") && !StartsWith(l, "Subproject commit ")
  {
    Differs(l, "--- ", 0);
    Differs(l, "+++ ", 0);
    Differs(l, "rename from ", 0);
    Differs(l, "rename to ", 0);
    Differs(l, "copy from ", 0);
    Differs(l, "copy to ", 0);
    Differs(l, "index ", 0);
    Differs(l, "Subproject commit ", 0);
  }

  lemma OldModeLine(m: Mode)
    ensures Classify("old mode " + ModeText(m)) == ModeKind(m)
  {
    var l := "old mode " + ModeText(m);
    Differs(l, "diff --git ", 0);
    Differs(l, "deleted mode ", 0);
    ModeLineKind("old mode ", m);
  }

  lemma NewModeLine(m: Mode)
    ensures Classify("new mode " + ModeText(m)) == ModeKind(m)
  {
    var l := "new mode " + ModeText(m);
    Differs(l, "diff --git ", 0);
    Differs(l, "deleted mode ", 0);
    ModeLineKind("new mode ", m);
  }

  lemma NewFileLine(m: Mode)
    ensures Classify("new file mode " + ModeText(m)) == ModeKind(m)
  {
    var l := "new file mode " + ModeText(m);
    Differs(l, "diff --git ", 0);
    Differs(l, "old mode ", 0);
    Differs(l, "new mode ", 4);
    Differs(l, "deleted mode ", 0);
    ModeLineKind("new file mode ", m);
  }

  lemma DeletedFileLine(m: Mode)
    ensures Classify("deleted file mode " + ModeText(m)) == ModeKind(m)
  {
    var l := "deleted file mode " + ModeText(m);
    Differs(l, "diff --git ", 1);
    Differs(l, "old mode ", 0);
    Differs(l, "new mode ", 0);
    Differs(l, "new file mode ", 0);
    Differs(l, "deleted mode ", 8);
    ModeLineKind("deleted file mode ", m);
  }

  lemma {:induction false} UnspacedRun(token: string, rest: string)
    requires forall c | c in token :: !IsSpace(c)
    requires rest == "" || IsSpace(rest[0])
    ensures Unspaced(token + rest) == token
  {
    if token == "" {
      assert token + rest == rest;
    } else {
      assert (token + rest)[1..] == token[1..] + rest;
      UnspacedRun(token[1..], rest);
    }
  }

  /** An index line is judged by what follows its hash token. */
  lemma IndexLine(hashes: string, tail: string)
    requires hashes != "" && forall c | c in hashes :: !IsSpace(c)
    requires tail == "" || tail[0] == ' '
    ensures Classify("index " + hashes + tail) ==
            (if StartsWith(tail, " 120000") then Symlink else if StartsWith(tail, " 160000") then Gitlink else Plain)
  {
    hide OldNewName, EndpointText, Unspaced, IsHeader, ModeWords, StartsWith;
    var l := "index " + hashes + tail;
    IndexWords(l);
    IndexTail(l, hashes, tail);
  }

  lemma IndexTail(l: string, hashes: string, tail: string)
    requires l == "index " + hashes + tail && hashes != "" && forall c | c in hashes :: !IsSpace(c)
    requires tail == "" || tail[0] == ' '
    ensures IndexLineEnds(l, " 120000") <==> StartsWith(tail, " 120000")
    ensures IndexLineEnds(l, " 160000") <==> StartsWith(tail, " 160000")
  {
    hide Unspaced;
    assert l[6..] == hashes + tail;
    UnspacedRun(hashes, tail);
    assert l[6 + |hashes|..] == tail && StartsWith(l, "index ");
  }

  lemma IndexMode(m: Mode)
    ensures StartsWith(" " + ModeText(m), " 120000") <==> m == Link
    ensures StartsWith(" " + ModeText(m), " 160000") <==> m == Submodule
  {
    var tail := " " + ModeText(m);
    if m != Link { Differs(tail, " 120000", 2); }
    if m != Submodule { Differs(tail, " 160000", 2); }
  }

  lemma IndexWords(l: string)
    requires l != "" && l[0] == 'i'
    ensures !IsHeader(l) && OldNewName(l).None? && EndpointText(l).None? && ModeWords(l) == 0
    ensures !StartsWith(l, "Subproject commit ")
  {
    Differs(l, "diff --git ", 0);
    Differs(l, "--- ", 0);
    Differs(l, "+++ ", 0);
    Differs(l, "rename from ", 0);
    Differs(l, "rename to ", 0);
    Differs(l, "copy from ", 0);
    Differs(l, "copy to ", 0);
    Differs(l, "old mode ", 0);
    Differs(l, "new mode ", 0);
    Differs(l, "new file mode ", 0);
    Differs(l, "deleted mode ", 0);
    Differs(l, "deleted file mode ", 0);
    Differs(l, "Subproject commit ", 0);
  }

  /** A line that begins with none of `d r c o n i S` is judged by its `---` or `+++` name alone:
      content can neither fake a header nor hide one. */
  lemma TextLine(l: string)
    requires l != "" && l[0] in {' ', '+', '-', '\\', '@', 's'}
    ensures Classify(l) == (if OldNewName(l).Some? then OldNew(OldNewName(l).value) else Plain)
  {
    Differs(l, "diff --git ", 0);
    Differs(l, "rename from ", 0);
    Differs(l, "rename to ", 0);
    Differs(l, "copy from ", 0);
    Differs(l, "copy to ", 0);
    Differs(l, "old mode ", 0);
    Differs(l, "new mode ", 0);
    Differs(l, "new file mode ", 0);
    Differs(l, "deleted mode ", 0);
    Differs(l, "deleted file mode ", 0);
    Differs(l, "index ", 0);
    Differs(l, "Subproject commit ", 0);
  }

  /** An endpoint line hands the printed path, whole, to the decoder. */
  lemma EndpointLine(words: string, text: string)
    requires words in {"rename from ", "rename to ", "copy from ", "copy to "} && text != ""
    ensures Classify(words + text) == Endpoint(text)
  {
    var l := words + text;
    assert l[|words|..] == text && l[..|words|] == words;
    Differs(l, "diff --git ", 0);
    Differs(l, "--- ", 0);
    Differs(l, "+++ ", 0);
    if words == "rename to " {
      Differs(l, "rename from ", 7);
    } else if words == "copy from " {
      Differs(l, "rename from ", 0);
      Differs(l, "rename to ", 0);
    } else if words == "copy to " {
      Differs(l, "rename from ", 0);
      Differs(l, "rename to ", 0);
      Differs(l, "copy from ", 5);
    }
  }
}
