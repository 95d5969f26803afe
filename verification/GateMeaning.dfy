/** What the gate's verdict on any text says about the text itself and git's path listing
    (launcher/patchgate.py:32-64, 107-149, 167-225). */
module GateMeaning {
  import opened Text
  import Utf8
  import GitQuote
  import opened PatchGate
  import StructuredPatch
  import GateSoundness

  // ---------------------------------------------------------------- one path

  /** Under one of the four zones, and neither `..` nor `.git` among its components. */
  predicate Writable(path: Bytes) {
    && (Ascii("src/") <= path || Ascii("tests/") <= path || Ascii("docs/") <= path || Ascii("scripts/") <= path)
    && Ascii("..") !in Split(path, 0x2F) && Ascii(".git") !in Split(path, 0x2F)
  }

  lemma WritableInZone(path: Bytes)
    ensures Writable(path) <==> StructuredPatch.InZone(path)
  {
    hide Split;
    Prefixed(path, "src");
    Prefixed(path, "tests");
    Prefixed(path, "docs");
    Prefixed(path, "scripts");
    ZonesAre(path);
  }

  lemma ZonesAre(path: Bytes)
    ensures (exists zone, rest :: zone in ZONES && path == zone + [SLASH] + rest) <==>
            Under(path, "src") || Under(path, "tests") || Under(path, "docs") || Under(path, "scripts")
  {
    hide Ascii;
    assert ZONES[0] == Ascii("src") && ZONES[1] == Ascii("tests") && ZONES[2] == Ascii("docs")
           && ZONES[3] == Ascii("scripts");
    if zone, rest :| zone in ZONES && path == zone + [SLASH] + rest {
      assert zone == ZONES[0] || zone == ZONES[1] || zone == ZONES[2] || zone == ZONES[3];
    }
    if Under(path, "src") { var rest :| path == Ascii("src") + [SLASH] + rest; assert ZONES[0] in ZONES; }
    if Under(path, "tests") { var rest :| path == Ascii("tests") + [SLASH] + rest; assert ZONES[1] in ZONES; }
    if Under(path, "docs") { var rest :| path == Ascii("docs") + [SLASH] + rest; assert ZONES[2] in ZONES; }
    if Under(path, "scripts") { var rest :| path == Ascii("scripts") + [SLASH] + rest; assert ZONES[3] in ZONES; }
  }

  ghost predicate Under(path: Bytes, zone: string)
    requires forall i | 0 <= i < |zone| :: zone[i] as int < 0x80
  {
    exists rest :: path == Ascii(zone) + [SLASH] + rest
  }

  lemma Prefixed(path: Bytes, zone: string)
    requires forall i | 0 <= i < |zone| :: zone[i] as int < 0x80
    ensures Under(path, zone) <==> Ascii(zone + "/") <= path
  {
    var front := Ascii(zone) + [SLASH];
    assert Ascii(zone + "/") == front;
    if front <= path {
      assert path == front + path[|front|..];
    }
  }

  /** A name in a `---` or `+++` line: git's sentinel, or relative with neither `..` nor `.git` inside. */
  predicate NamesNothingElse(path: Bytes) {
    || path == Ascii("/dev/null")
    || ((path == [] || path[0] != 0x2F) && Ascii("..") !in Split(path, 0x2F) && Ascii(".git") !in Split(path, 0x2F))
  }

  lemma NamesDecided(path: Bytes)
    ensures PathViolations(path) == [] <==> NamesNothingElse(path)
  {
  }

  // ---------------------------------------------------------------- one line

  predicate Unblank(s: string) {
    s != "" && forall c | c in s :: !IsSpace(c)
  }

  /** The rest of a line, from `name` on, begins with this name and then ends or goes on with a blank. */
  ghost predicate Begins(rest: string, name: string) {
    name <= rest && Unblank(name) && (|name| == |rest| || IsSpace(rest[|name|]))
  }

  /** `a/` or `b/` stands before a name. */
  predicate Sided(rest: string) {
    StartsWith(rest, "a/") || StartsWith(rest, "b/")
  }

  /** The line names a file: after the sign, and after `a/` or `b/` where a name follows those. */
  ghost predicate NameLine(line: string, name: string) {
    && (StartsWith(line, "--- ") || StartsWith(line, "+++ "))
    && var rest := line[4..];
       if Sided(rest) && |rest| > 2 && !IsSpace(rest[2]) then Begins(rest[2..], name) else Begins(rest, name)
  }

  ghost predicate EndpointLine(line: string, text: string) {
    && text != ""
    && (line == "rename from " + text || line == "rename to " + text
        || line == "copy from " + text || line == "copy to " + text)
  }

  /** `index`, the two hashes without a blank, and a mode. */
  ghost predicate IndexLine(line: string, mode: string) {
    exists hashes :: Unblank(hashes) && "index " + hashes + " " + mode <= line
  }

  ghost predicate SymlinkLine(line: string) {
    || "old mode 120000" <= line || "new mode 120000" <= line || "new file mode 120000" <= line
    || "deleted mode 120000" <= line || "deleted file mode 120000" <= line || IndexLine(line, "120000")
  }

  ghost predicate GitlinkLine(line: string) {
    || "old mode 160000" <= line || "new mode 160000" <= line || "new file mode 160000" <= line
    || "deleted file mode 160000" <= line || IndexLine(line, "160000") || "Subproject commit " <= line
  }

  lemma {:induction false} UnspacedIs(s: string, name: string)
    requires Begins(s, name)
    ensures Unspaced(s) == name
  {
    assert s[0] == name[0];
    if |name| == 1 {
      assert Unspaced(s[1..]) == "";
    } else {
      UnspacedIs(s[1..], name[1..]);
      assert name == [name[0]] + name[1..];
    }
  }

  lemma UnspacedBegins(s: string)
    ensures Unspaced(s) != "" ==> Begins(s, Unspaced(s))
    ensures Unspaced(s) == "" <==> s == "" || IsSpace(s[0])
  {
  }

  lemma NameLineForm(line: string, name: string)
    ensures OldNewName(line) == Some(name) <==> NameLine(line, name)
  {
    hide Unspaced, IsSpace, Begins;
    if StartsWith(line, "--- ") || StartsWith(line, "+++ ") {
      var rest := line[4..];
      UnspacedBegins(rest);
      if Begins(rest, name) { UnspacedIs(rest, name); NotBlank(rest, name); }
      if Sided(rest) {
        UnspacedBegins(rest[2..]);
        if Begins(rest[2..], name) { UnspacedIs(rest[2..], name); NotBlank(rest[2..], name); }
      }
    }
  }

  lemma NotBlank(s: string, name: string)
    requires Begins(s, name)
    ensures name != "" && s != "" && !IsSpace(s[0])
  {
    assert s[0] == name[0];
  }

  lemma Headed(line: string, head: string, text: string)
    ensures line == head + text <==> StartsWith(line, head) && line[|head|..] == text
  {
  }

  lemma OtherHead(line: string, head: string, other: string, k: nat)
    requires k < |head| && k < |other| && head[k] != other[k]
    ensures !(StartsWith(line, head) && StartsWith(line, other))
  {
  }

  lemma EndpointForm(line: string, text: string)
    ensures EndpointText(line) == Some(text) <==> EndpointLine(line, text)
  {
    hide StartsWith;
    Headed(line, "rename from ", text);
    Headed(line, "rename to ", text);
    Headed(line, "copy from ", text);
    Headed(line, "copy to ", text);
    OtherHead(line, "rename from ", "rename to ", 7);
    OtherHead(line, "rename from ", "copy from ", 0);
    OtherHead(line, "rename from ", "copy to ", 0);
    OtherHead(line, "rename to ", "copy from ", 0);
    OtherHead(line, "rename to ", "copy to ", 0);
    OtherHead(line, "copy from ", "copy to ", 5);
    Shorter(line, "rename from ");
    Shorter(line, "rename to ");
    Shorter(line, "copy from ");
    Shorter(line, "copy to ");
  }

  lemma Shorter(line: string, head: string)
    ensures StartsWith(line, head) ==> |head| <= |line|
  {
  }

  lemma IndexForm(line: string, mode: string)
    ensures IndexLineEnds(line, " " + mode) <==> IndexLine(line, mode)
  {
    hide Unspaced, IsSpace;
    if IndexLineEnds(line, " " + mode) { IndexFound(line, mode); }
    if IndexLine(line, mode) {
      var hashes :| Unblank(hashes) && "index " + hashes + " " + mode <= line;
      IndexSeen(line, hashes, mode);
    }
  }

  lemma IndexFound(line: string, mode: string)
    requires IndexLineEnds(line, " " + mode)
    ensures IndexLine(line, mode)
  {
    hide Unspaced, IsSpace;
    var hashes := Unspaced(line[6..]);
    UnspacedBegins(line[6..]);
    var rest := line[6 + |hashes|..];
    assert line == "index " + hashes + rest && rest == " " + mode + rest[1 + |mode|..];
    assert "index " + hashes + " " + mode <= line;
  }

  lemma IndexSeen(line: string, hashes: string, mode: string)
    requires Unblank(hashes) && "index " + hashes + " " + mode <= line
    ensures IndexLineEnds(line, " " + mode)
  {
    hide Unspaced, IsSpace;
    assert line[..6] == "index " && line[6..][..|hashes|] == hashes && line[6..][|hashes|] == ' ';
    SpaceIsBlank();
    assert Begins(line[6..], hashes);
    UnspacedIs(line[6..], hashes);
    assert line[6 + |hashes|..][..1 + |mode|] == " " + mode;
  }

  lemma SpaceIsBlank()
    ensures IsSpace(' ')
  {
  }

  lemma Joined(line: string, words: string, mode: string)
    ensures StartsWith(line, words) && StartsWith(line[|words|..], mode) <==> words + mode <= line
  {
    if StartsWith(line, words) && StartsWith(line[|words|..], mode) {
      assert line == words + line[|words|..] && line[|words|..] == mode + line[|words|..][|mode|..];
    }
    if words + mode <= line {
      assert line[..|words|] == words && line[|words|..][..|mode|] == mode;
    }
  }

  /** The five ways of `ModeWords`; they exclude one another. */
  lemma ModeLineForm(line: string, mode: string)
    ensures ModeLineWith(line, mode) <==>
            || "old mode " + mode <= line || "new mode " + mode <= line || "new file mode " + mode <= line
            || "deleted mode " + mode <= line || "deleted file mode " + mode <= line
  {
    hide StartsWith;
    Joined(line, "old mode ", mode);
    Joined(line, "new mode ", mode);
    Joined(line, "new file mode ", mode);
    Joined(line, "deleted mode ", mode);
    Joined(line, "deleted file mode ", mode);
    Shorter(line, "old mode ");
    Shorter(line, "new mode ");
    Shorter(line, "new file mode ");
    Shorter(line, "deleted mode ");
    Shorter(line, "deleted file mode ");
    OtherHead(line, "old mode ", "new mode ", 0);
    OtherHead(line, "old mode ", "new file mode ", 0);
    OtherHead(line, "old mode ", "deleted mode ", 0);
    OtherHead(line, "old mode ", "deleted file mode ", 0);
    OtherHead(line, "new mode ", "new file mode ", 4);
    OtherHead(line, "new mode ", "deleted mode ", 0);
    OtherHead(line, "new mode ", "deleted file mode ", 0);
    OtherHead(line, "new file mode ", "deleted mode ", 0);
    OtherHead(line, "new file mode ", "deleted file mode ", 0);
    OtherHead(line, "deleted mode ", "deleted file mode ", 8);
  }

  lemma SymlinkForm(line: string)
    ensures MarksSymlink(line) <==> SymlinkLine(line)
  {
    hide ModeLineWith, IndexLineEnds;
    ModeLineForm(line, "120000");
    IndexForm(line, "120000");
    assert " " + "120000" == " 120000";
    assert "old mode " + "120000" == "old mode 120000" && "new mode " + "120000" == "new mode 120000";
    assert "new file mode " + "120000" == "new file mode 120000" && "deleted mode " + "120000" == "deleted mode 120000";
    assert "deleted file mode " + "120000" == "deleted file mode 120000";
  }

  lemma GitlinkForm(line: string)
    ensures MarksGitlink(line) <==> GitlinkLine(line)
  {
    hide ModeLineWith, IndexLineEnds;
    ModeLineForm(line, "160000");
    IndexForm(line, "160000");
    assert " " + "160000" == " 160000";
    assert "old mode " + "160000" == "old mode 160000" && "new mode " + "160000" == "new mode 160000";
    assert "new file mode " + "160000" == "new file mode 160000";
    assert "deleted file mode " + "160000" == "deleted file mode 160000";
    DeletedMode(line);
  }

  lemma DeletedMode(line: string)
    ensures "deleted mode 160000" <= line ==> StartsWith(line, "deleted mode ")
    ensures StartsWith(line, "deleted mode ") ==>
              !("old mode 160000" <= line) && !("new mode 160000" <= line) && !("new file mode 160000" <= line)
              && !("deleted file mode 160000" <= line)
  {
    assert "deleted mode 160000"[..13] == "deleted mode ";
    OtherHead(line, "deleted mode ", "old mode 160000", 0);
    OtherHead(line, "deleted mode ", "new mode 160000", 0);
    OtherHead(line, "deleted mode ", "new file mode 160000", 0);
    OtherHead(line, "deleted mode ", "deleted file mode 160000", 8);
  }

  // ---------------------------------------------------------------- the forms exclude one another

  /** The two characters that tell the kinds of lines apart. */
  lemma FirstLetters(line: string)
    ensures IsHeader(line) ==> |line| > 1 && line[0] == 'd' && line[1] == 'i'
    ensures OldNewName(line).Some? ==> |line| > 1 && (line[0] == '-' || line[0] == '+')
    ensures EndpointText(line).Some? ==> |line| > 1 && (line[0] == 'r' || line[0] == 'c')
    ensures MarksSymlink(line) || MarksGitlink(line) ==>
              |line| > 1 && (line[0] in {'o', 'n', 'i', 'S'} || (line[0] == 'd' && line[1] == 'e'))
  {
    hide Unspaced;
    ModeLetters(line, "120000");
    ModeLetters(line, "160000");
  }

  lemma ModeLetters(line: string, mode: string)
    ensures ModeLineWith(line, mode) ==> |line| > 1 && (line[0] in {'o', 'n'} || (line[0] == 'd' && line[1] == 'e'))
  {
  }

  lemma ModesDiffer(line: string)
    ensures !(MarksSymlink(line) && MarksGitlink(line))
  {
    hide ModeLineWith, IndexLineEnds;
    OneMode(line);
    OneIndexMode(line);
    ModeLetters(line, "120000");
    ModeLetters(line, "160000");
    IndexLetters(line, " 120000");
    IndexLetters(line, " 160000");
  }

  lemma OneMode(line: string)
    ensures !(ModeLineWith(line, "120000") && ModeLineWith(line, "160000"))
  {
    hide ModeWords;
    var rest := line[if ModeWords(line) <= |line| then ModeWords(line) else 0..];
    OtherHead(rest, "120000", "160000", 1);
  }

  lemma OneIndexMode(line: string)
    ensures !(IndexLineEnds(line, " 120000") && IndexLineEnds(line, " 160000"))
  {
    hide Unspaced;
    if StartsWith(line, "index ") {
      OtherHead(line[6 + |Unspaced(line[6..])|..], " 120000", " 160000", 2);
    }
  }

  lemma IndexLetters(line: string, mode: string)
    ensures IndexLineEnds(line, mode) ==> line[0] == 'i' && !StartsWith(line, "Subproject commit ")
  {
  }

  /** Which lines the loop acts on, and how: each kind by its own forms, whatever is tried first. */
  lemma LineForms(line: string)
    ensures Classify(line) == Header <==> "diff --git " <= line
    ensures forall name :: Classify(line) == OldNew(name) <==> NameLine(line, name)
    ensures forall text :: Classify(line) == Endpoint(text) <==> EndpointLine(line, text)
    ensures Classify(line) == Symlink <==> SymlinkLine(line)
    ensures Classify(line) == Gitlink <==> GitlinkLine(line)
  {
    hide OldNewName, EndpointText, MarksSymlink, MarksGitlink, NameLine, EndpointLine, SymlinkLine, GitlinkLine;
    FirstLetters(line);
    ModesDiffer(line);
    SymlinkForm(line);
    GitlinkForm(line);
    forall name ensures OldNewName(line) == Some(name) <==> NameLine(line, name) { NameLineForm(line, name); }
    forall text ensures EndpointText(line) == Some(text) <==> EndpointLine(line, text) { EndpointForm(line, text); }
  }

  // ---------------------------------------------------------------- the whole text

  /** The header lines before line `n`. */
  function HeadersBefore(lines: seq<string>, n: nat): set<nat>
    requires n <= |lines|
  {
    set i: nat | i < n && "diff --git " <= lines[i]
  }

  /** The path of the section a line stands in: that of the last header at or before it. */
  function SectionPath(lines: seq<string>, paths: seq<Bytes>, k: nat): Option<Bytes>
    requires k < |lines|
  {
    var n := |HeadersBefore(lines, k + 1)|;
    if 0 < n <= |paths| then Some(paths[n - 1]) else None
  }

  /** Nothing in the line names a place outside the zones, and none marks a link or a gitlink. */
  ghost predicate LineClean(line: string, section: Option<Bytes>) {
    && (forall name :: NameLine(line, name) ==> NamesNothingElse(Utf8.Encode(name)))
    && (forall text :: EndpointLine(line, text) ==>
          GitQuote.Unquote(text).Some? && Writable(GitQuote.Unquote(text).value))
    && (SymlinkLine(line) ==> section.None? || section.value == [])
    && !GitlinkLine(line)
  }

  /** Git could read the patch, names one path for each header line, and every path and line is clean. */
  ghost predicate Accepted(text: string, numstat: Option<seq<Bytes>>) {
    var lines := Split(text, '\n');
    && numstat.Some? && |HeadersBefore(lines, |lines|)| == |numstat.value|
    && (forall path | path in numstat.value :: Writable(path))
    && forall k | 0 <= k < |lines| :: LineClean(lines[k], SectionPath(lines, numstat.value, k))
  }

  lemma CleanDecided(line: string, section: Option<Bytes>)
    ensures KindViolations(Classify(line), section) == [] <==> LineClean(line, section)
  {
    hide Classify, NameLine, EndpointLine, SymlinkLine, GitlinkLine, KindViolations, LineClean;
    LineForms(line);
    CleanByKind(line, section, Classify(line));
  }

  lemma CleanByKind(line: string, section: Option<Bytes>, kind: Kind)
    requires forall name :: kind == OldNew(name) <==> NameLine(line, name)
    requires forall text :: kind == Endpoint(text) <==> EndpointLine(line, text)
    requires (kind == Symlink <==> SymlinkLine(line)) && (kind == Gitlink <==> GitlinkLine(line))
    ensures KindViolations(kind, section) == [] <==> LineClean(line, section)
  {
    hide NameLine, EndpointLine, SymlinkLine, GitlinkLine, PathViolations, Writable, NamesNothingElse;
    hide EndpointViolations, GitQuote.Unquote;
    if kind.OldNew? {
      NamesDecided(Utf8.Encode(kind.name));
      assert NameLine(line, kind.name);
    } else if kind.Endpoint? {
      EndpointDecided(kind.text);
      assert EndpointLine(line, kind.text);
    }
  }

  lemma EndpointDecided(text: string)
    ensures EndpointViolations(text) == [] <==> GitQuote.Unquote(text).Some? && Writable(GitQuote.Unquote(text).value)
    ensures BadQuoting in EndpointViolations(text) <==> GitQuote.Unquote(text).None?
  {
    hide GitQuote.Unquote, Judge, Writable, StructuredPatch.InZone;
    if GitQuote.Unquote(text).Some? {
      var path := GitQuote.Unquote(text).value;
      GateSoundness.JudgeDecides(path);
      WritableInZone(path);
      JudgeNames(path);
    }
  }

  lemma JudgeNames(path: Bytes)
    ensures BadQuoting !in Judge(path) && BadQuoting !in PathViolations(path)
  {
  }

  lemma BadDecided(line: string, section: Option<Bytes>)
    ensures BadQuoting in KindViolations(Classify(line), section) <==>
            exists text :: EndpointLine(line, text) && GitQuote.Unquote(text).None?
  {
    hide Classify, NameLine, EndpointLine, SymlinkLine, GitlinkLine, PathViolations, EndpointViolations;
    hide GitQuote.Unquote;
    LineForms(line);
    match Classify(line)
    case OldNew(name) => JudgeNames(Utf8.Encode(name));
    case Endpoint(text) => EndpointDecided(text);
    case _ =>
  }

  lemma HeadersStep(lines: seq<string>, k: nat)
    requires k < |lines|
    ensures |HeadersBefore(lines, k + 1)| == |HeadersBefore(lines, k)| + if "diff --git " <= lines[k] then 1 else 0
  {
    var before := HeadersBefore(lines, k);
    assert HeadersBefore(lines, k + 1) == before + if "diff --git " <= lines[k] then {k} else {};
  }

  lemma {:induction false} HeadersCounted(lines: seq<string>, k: nat)
    requires k <= |lines|
    ensures |HeadersBefore(lines, k)| + HeaderCount(Kinds(lines[k..])) == |HeadersBefore(lines, |lines|)|
    decreases |lines| - k
  {
    hide HeadersBefore, Classify;
    if k < |lines| {
      HeadersStep(lines, k);
      KindsAt(lines, k);
      CountStep(Classify(lines[k]), Kinds(lines[k + 1..]));
      LineForms(lines[k]);
      HeadersCounted(lines, k + 1);
    }
  }

  /** The scan before line `k`: the paths not yet taken, and the section it stands in. */
  ghost function ScanFrom(lines: seq<string>, paths: seq<Bytes>, k: nat): seq<Violation>
    requires k <= |lines| && |HeadersBefore(lines, k)| + HeaderCount(Kinds(lines[k..])) == |paths|
  {
    var n := |HeadersBefore(lines, k)|;
    Scan(Kinds(lines[k..]), paths[n..], if n > 0 then Some(paths[n - 1]) else None)
  }

  lemma ScanFromStep(lines: seq<string>, paths: seq<Bytes>, k: nat)
    requires k < |lines| && |HeadersBefore(lines, |lines|)| == |paths|
    ensures |HeadersBefore(lines, k)| + HeaderCount(Kinds(lines[k..])) == |paths|
    ensures |HeadersBefore(lines, k + 1)| + HeaderCount(Kinds(lines[k + 1..])) == |paths|
    ensures ScanFrom(lines, paths, k)
            == KindViolations(Classify(lines[k]), SectionPath(lines, paths, k)) + ScanFrom(lines, paths, k + 1)
  {
    hide Classify, HeadersBefore, KindViolations;
    HeadersCounted(lines, k);
    HeadersCounted(lines, k + 1);
    HeadersStep(lines, k);
    KindsAt(lines, k);
    LineForms(lines[k]);
    var n, kinds := |HeadersBefore(lines, k)|, Kinds(lines[k + 1..]);
    var current := if n > 0 then Some(paths[n - 1]) else None;
    CountStep(Classify(lines[k]), kinds);
    ScanOne(Classify(lines[k]), kinds, paths[n..], current);
    HeaderQuiet(SectionPath(lines, paths, k));
    if Classify(lines[k]) == Header {
      assert paths[n..][1..] == paths[n + 1..] && paths[n..][0] == paths[n];
      assert [] + ScanFrom(lines, paths, k + 1) == ScanFrom(lines, paths, k + 1);
    }
  }

  lemma HeaderQuiet(section: Option<Bytes>)
    ensures KindViolations(Header, section) == []
  {
  }

  lemma ScanOne(kind: Kind, rest: seq<Kind>, paths: seq<Bytes>, current: Option<Bytes>)
    requires HeaderCount([kind] + rest) <= |paths| && HeaderCount(rest) <= |paths|
    requires kind == Header ==> paths != [] && HeaderCount(rest) <= |paths[1..]|
    ensures Scan([kind] + rest, paths, current)
            == if kind == Header then Scan(rest, paths[1..], Some(paths[0]))
               else KindViolations(kind, current) + Scan(rest, paths, current)
  {
    assert ([kind] + rest)[1..] == rest;
  }

  lemma {:induction false} ScanDecided(lines: seq<string>, paths: seq<Bytes>, k: nat)
    requires k <= |lines| && |HeadersBefore(lines, |lines|)| == |paths|
    ensures |HeadersBefore(lines, k)| + HeaderCount(Kinds(lines[k..])) == |paths|
    ensures ScanFrom(lines, paths, k) == [] <==>
            forall i | k <= i < |lines| :: LineClean(lines[i], SectionPath(lines, paths, i))
    ensures BadQuoting in ScanFrom(lines, paths, k) <==>
            exists i, text :: k <= i < |lines| && EndpointLine(lines[i], text) && GitQuote.Unquote(text).None?
    decreases |lines| - k
  {
    hide Classify, HeadersBefore, KindViolations, LineClean, EndpointLine, GitQuote.Unquote, SectionPath;
    if k < |lines| {
      hide ScanFrom;
      ScanFromStep(lines, paths, k);
      ScanDecided(lines, paths, k + 1);
      CleanDecided(lines[k], SectionPath(lines, paths, k));
      BadDecided(lines[k], SectionPath(lines, paths, k));
    } else {
      HeadersCounted(lines, k);
    }
  }

  lemma {:induction false} PathsDecided(paths: seq<Bytes>)
    ensures PathsViolations(paths) == [] <==> forall path | path in paths :: Writable(path)
  {
    hide Judge, Writable, StructuredPatch.InZone;
    if paths != [] {
      PathsDecided(paths[1..]);
      GateSoundness.JudgeDecides(paths[0]);
      WritableInZone(paths[0]);
      assert forall path :: path in paths <==> path == paths[0] || path in paths[1..];
    }
  }

  /** For every text and every answer of git's parser: the gate reports nothing exactly if git read the
      patch, named one path for each header line, and every path and every line is clean; and it raises
      exactly where the counts agree and an endpoint cannot be decoded. */
  lemma GateExactly(text: string, numstat: Option<seq<Bytes>>)
    ensures Gate(text, numstat) == Reports([]) <==> Accepted(text, numstat)
    ensures Gate(text, numstat) == Raises <==>
            && numstat.Some? && |HeadersBefore(Split(text, '\n'), |Split(text, '\n')|)| == |numstat.value|
            && exists i, end :: 0 <= i < |Split(text, '\n')| && EndpointLine(Split(text, '\n')[i], end)
                                && GitQuote.Unquote(end).None?
  {
    hide Scan, Kinds, LineClean, EndpointLine, GitQuote.Unquote, SectionPath, PathsViolations, Writable, HeaderCount;
    if numstat.Some? {
      var lines, paths := Split(text, '\n'), numstat.value;
      HeadersCounted(lines, 0);
      assert lines[0..] == lines && HeadersBefore(lines, 0) == {};
      if |HeadersBefore(lines, |lines|)| == |paths| {
        ScanDecided(lines, paths, 0);
        assert paths[0..] == paths && ScanFrom(lines, paths, 0) == Scan(Kinds(lines), paths, None);
        PathsDecided(paths);
        GateSoundness.DedupEmpty(Scan(Kinds(lines), paths, None) + PathsViolations(paths));
      }
    }
    if Accepted(text, numstat) { CleanDecodes(text, numstat); }
  }

  lemma CleanDecodes(text: string, numstat: Option<seq<Bytes>>)
    requires Accepted(text, numstat)
    ensures var lines := Split(text, '\n');
            forall i, end | 0 <= i < |lines| && EndpointLine(lines[i], end) :: GitQuote.Unquote(end).Some?
  {
    hide GitQuote.Unquote, SectionPath, Writable, EndpointLine;
    var lines := Split(text, '\n');
    forall i, end | 0 <= i < |lines| && EndpointLine(lines[i], end)
      ensures GitQuote.Unquote(end).Some?
    {
      assert LineClean(lines[i], SectionPath(lines, numstat.value, i));
    }
  }

  // ---------------------------------------------------------------- git's own path list

  /** A record of three fields: two without a tab, and the path. */
  ghost predicate Fields(record: Bytes, path: Bytes) {
    exists a, b :: 9 !in a && 9 !in b && record == a + [9] + (b + [9] + path)
  }

  function Filled(records: seq<Bytes>): seq<Bytes> {
    if records == [] then [] else (if records[0] == [] then [] else [records[0]]) + Filled(records[1..])
  }

  lemma {:induction false} TabSplits(b: Bytes) returns (front: Bytes)
    requires TAB in b
    ensures TAB !in front && b == front + [TAB] + AfterTab(b)
  {
    if b[0] == TAB {
      front := [];
    } else {
      var rest := TabSplits(b[1..]);
      front := [b[0]] + rest;
    }
  }

  lemma FieldsDecided(record: Bytes, path: Bytes)
    ensures RecordPath(record) == Some(path) <==> Fields(record, path)
  {
    hide AfterTab;
    if RecordPath(record) == Some(path) {
      var a := TabSplits(record);
      var b := TabSplits(AfterTab(record));
      assert record == a + [9] + (b + [9] + path);
    }
    if Fields(record, path) {
      var a, b :| 9 !in a && 9 !in b && record == a + [9] + (b + [9] + path);
      AfterFirstTab(a, b + [9] + path);
      AfterFirstTab(b, path);
      assert TAB in record && TAB in b + [9] + path;
    }
  }

  lemma {:induction false} RecordsDecided(records: seq<Bytes>, paths: seq<Bytes>)
    ensures RecordPaths(records) == Some(paths) <==>
            && |Filled(records)| == |paths| && forall i | 0 <= i < |paths| :: Fields(Filled(records)[i], paths[i])
  {
    hide Fields, RecordPath;
    if records != [] {
      var rest := records[1..];
      if records[0] == [] {
        RecordsDecided(rest, paths);
        assert Filled(records) == Filled(rest);
      } else {
        var more := Filled(rest);
        assert Filled(records) == [records[0]] + more;
        if paths == [] {
          EmptyPaths(records);
        } else {
          RecordsDecided(rest, paths[1..]);
          FieldsDecided(records[0], paths[0]);
          assert paths == [paths[0]] + paths[1..];
          assert forall i | 0 <= i < |more| :: Filled(records)[i + 1] == more[i];
          Headmost(records, paths);
        }
      }
    }
  }

  lemma EmptyPaths(records: seq<Bytes>)
    requires records != [] && records[0] != []
    ensures RecordPaths(records) != Some([])
  {
    hide RecordPath;
  }

  lemma Headmost(records: seq<Bytes>, paths: seq<Bytes>)
    requires records != [] && records[0] != [] && paths != []
    ensures RecordPaths(records) == Some(paths) <==>
            RecordPath(records[0]) == Some(paths[0]) && RecordPaths(records[1..]) == Some(paths[1..])
  {
    hide RecordPath;
    assert paths == [paths[0]] + paths[1..];
    if RecordPath(records[0]).Some? && RecordPaths(records[1..]).Some? {
      var head, tail := [RecordPath(records[0]).value], RecordPaths(records[1..]).value;
      assert (head + tail)[0] == head[0] && (head + tail)[1..] == tail;
    }
  }

  /** What git's listing is read as: these paths exactly if the call answered with code 0 and every record
      that is not empty has three fields, the third being the path. */
  lemma NumstatExactly(answer: Option<(int, Bytes)>, paths: seq<Bytes>)
    ensures NumstatPaths(answer) == Some(paths) <==>
            && answer.Some? && answer.value.0 == 0
            && var records := Filled(Split(answer.value.1, 0));
               |records| == |paths| && forall i | 0 <= i < |paths| :: Fields(records[i], paths[i])
  {
    hide Fields, RecordPaths, Split, Filled;
    if answer.Some? { RecordsDecided(Split(answer.value.1, 0), paths); }
  }
}
