/** The transport gate over a patch text (launcher/patchgate.py:32-64, 107-225). */
module PatchGate {
  import opened Text
  import Utf8
  import GitQuote

  const SLASH: Byte := 0x2F
  const NEWLINE := '\n'

  /** An ASCII literal as the bytes of a path. */
  function Ascii(s: string): (b: Bytes)
    requires forall i | 0 <= i < |s| :: s[i] as int < 0x80
    ensures |b| == |s| && forall i | 0 <= i < |s| :: b[i] == s[i] as int
  {
    seq(|s|, i requires 0 <= i < |s| => s[i] as int)
  }

  const ZONES: seq<Bytes> := [Ascii("src"), Ascii("tests"), Ascii("docs"), Ascii("scripts")]
  const DEV_NULL: Bytes := Ascii("/dev/null")
  const DOT_DOT: Bytes := Ascii("..")
  const DOT_GIT: Bytes := Ascii(".git")

  datatype Violation =
    | ParseFailed
    | CountMismatch(headers: nat, paths: nat)
    | Absolute(path: Bytes)
    | Traversal(path: Bytes)
    | GitDir(path: Bytes)
    | OutOfZone(path: Bytes)
    | SymlinkMode(path: Bytes)
    | GitlinkMode(section: Option<Bytes>)
    | BadQuoting

  /** The gate's list of violations, or the ValueError of an octal escape above 255. */
  datatype Outcome = Raises | Reports(violations: seq<Violation>)

  // ---------------------------------------------------------------- one path

  function When(condition: bool, v: Violation): seq<Violation> {
    if condition then [v] else []
  }

  function PathViolations(path: Bytes): seq<Violation> {
    if path == DEV_NULL then []
    else
      var segments := Split(path, SLASH);
      When(path != [] && path[0] == SLASH, Absolute(path))
      + When(DOT_DOT in segments, Traversal(path))
      + When(DOT_GIT in segments, GitDir(path))
  }

  function ZoneViolation(path: Bytes): seq<Violation> {
    var segments := Split(path, SLASH);
    When(!(|segments| >= 2 && segments[0] in ZONES), OutOfZone(path))
  }

  function Judge(path: Bytes): seq<Violation> {
    PathViolations(path) + ZoneViolation(path)
  }

  // ---------------------------------------------------------------- one line

  function Unspaced(s: string): (r: string)
    ensures r <= s && (r == s || (|r| < |s| && IsSpace(s[|r|])))
    ensures forall c | c in r :: !IsSpace(c)
  {
    if s == "" || IsSpace(s[0]) then "" else [s[0]] + Unspaced(s[1..])
  }

  /** `^(?:---|\+\+\+) (?:a/|b/)?(\S+)`, its group. */
  function OldNewName(line: string): Option<string> {
    if !(StartsWith(line, "--- ") || StartsWith(line, "+++ ")) then None
    else
      var rest := line[4..];
      var inner := if StartsWith(rest, "a/") || StartsWith(rest, "b/") then rest[2..] else rest;
      if Unspaced(inner) != "" then Some(Unspaced(inner))
      else if Unspaced(rest) != "" then Some(Unspaced(rest))
      else None
  }

  /** `^(?:rename|copy) (?:from|to) (.+)`, its group. */
  function EndpointText(line: string): Option<string> {
    var n :=
      if StartsWith(line, "rename from ") then 12
      else if StartsWith(line, "rename to ") then 10
      else if StartsWith(line, "copy from ") then 10
      else if StartsWith(line, "copy to ") then 8
      else 0;
    if n == 0 || |line| == n then None else Some(line[n..])
  }

  predicate IndexLineEnds(line: string, mode: string) {
    && StartsWith(line, "index ")
    && var hashes := Unspaced(line[6..]);
       hashes != "" && StartsWith(line[6 + |hashes|..], mode)
  }

  /** The length of the words before the digits of a mode line; 0 for any other line. */
  function ModeWords(line: string): nat {
    if StartsWith(line, "old mode ") || StartsWith(line, "new mode ") then 9
    else if StartsWith(line, "new file mode ") then 14
    else if StartsWith(line, "deleted mode ") then 13
    else if StartsWith(line, "deleted file mode ") then 18
    else 0
  }

  predicate ModeLineWith(line: string, mode: string) {
    0 < ModeWords(line) <= |line| && StartsWith(line[ModeWords(line)..], mode)
  }

  predicate MarksSymlink(line: string) {
    ModeLineWith(line, "120000") || IndexLineEnds(line, " 120000")
  }

  /** Unlike for symlinks, the form `deleted mode` is not looked for. */
  predicate MarksGitlink(line: string) {
    || (ModeLineWith(line, "160000") && !StartsWith(line, "deleted mode "))
    || IndexLineEnds(line, " 160000") || StartsWith(line, "Subproject commit ")
  }

  predicate IsHeader(line: string) {
    StartsWith(line, "diff --git ")
  }

  datatype Kind = Header | OldNew(name: string) | Endpoint(text: string) | Symlink | Gitlink | Plain

  function Classify(line: string): Kind {
    if IsHeader(line) then Header
    else if OldNewName(line).Some? then OldNew(OldNewName(line).value)
    else if EndpointText(line).Some? then Endpoint(EndpointText(line).value)
    else if MarksSymlink(line) then Symlink
    else if MarksGitlink(line) then Gitlink
    else Plain
  }

  /** A rename or copy endpoint is judged as `_git_unquote` decodes it; a decoder error ends the gate. */
  function EndpointViolations(text: string): seq<Violation> {
    match GitQuote.Unquote(text)
    case None => [BadQuoting]
    case Some(path) => Judge(path)
  }

  function KindViolations(kind: Kind, current: Option<Bytes>): seq<Violation> {
    match kind
    case Header => []
    case OldNew(name) => PathViolations(Utf8.Encode(name))
    case Endpoint(text) => EndpointViolations(text)
    case Symlink => if current.Some? && current.value != [] then [SymlinkMode(current.value)] else []
    case Gitlink => [GitlinkMode(current)]
    case Plain => []
  }

  // ---------------------------------------------------------------- the whole text

  function Kinds(lines: seq<string>): (r: seq<Kind>)
    ensures |r| == |lines|
  {
    if lines == [] then [] else [Classify(lines[0])] + Kinds(lines[1..])
  }

  function HeaderCount(kinds: seq<Kind>): (n: nat)
    ensures n <= |kinds|
  {
    if kinds == [] then 0 else HeaderCount(kinds[1..]) + (if kinds[0] == Header then 1 else 0)
  }

  /** What the line loop collects, the i-th header taking the i-th parsed path. */
  function Scan(kinds: seq<Kind>, paths: seq<Bytes>, current: Option<Bytes>): seq<Violation>
    requires HeaderCount(kinds) <= |paths|
    decreases |kinds|
  {
    if kinds == [] then []
    else if kinds[0] == Header then Scan(kinds[1..], paths[1..], Some(paths[0]))
    else KindViolations(kinds[0], current) + Scan(kinds[1..], paths, current)
  }

  function PathsViolations(paths: seq<Bytes>): seq<Violation> {
    if paths == [] then [] else Judge(paths[0]) + PathsViolations(paths[1..])
  }

  /** The verdict of the gate on a text, given what git's own parser (`numstat`) answered. */
  function Gate(text: string, numstat: Option<seq<Bytes>>): Outcome {
    if numstat.None? then Reports([ParseFailed])
    else
      var paths, kinds := numstat.value, Kinds(Split(text, NEWLINE));
      if HeaderCount(kinds) != |paths| then Reports([CountMismatch(HeaderCount(kinds), |paths|)])
      else
        var scanned := Scan(kinds, paths, None);
        if BadQuoting in scanned then Raises else Reports(Dedup(scanned + PathsViolations(paths)))
  }

  // ---------------------------------------------------------------- the loops

  method JudgePaths(paths: seq<Bytes>, violations: seq<Violation>) returns (r: seq<Violation>)
    ensures r == violations + PathsViolations(paths)
  {
    r := violations;
    assert paths[0..] == paths;
    for k := 0 to |paths|
      invariant violations + PathsViolations(paths) == r + PathsViolations(paths[k..])
    {
      PathsStep(paths, k, r);
      r := r + (PathViolations(paths[k]) + ZoneViolation(paths[k]));
    }
  }

  lemma PathsStep(paths: seq<Bytes>, k: nat, r: seq<Violation>)
    requires k < |paths|
    ensures r + PathsViolations(paths[k..]) == r + Judge(paths[k]) + PathsViolations(paths[k + 1..])
  {
    assert paths[k..][0] == paths[k] && paths[k..][1..] == paths[k + 1..];
    var a, b := Judge(paths[k]), PathsViolations(paths[k + 1..]);
    assert r + (a + b) == r + a + b;
  }

  lemma KindsAt(lines: seq<string>, k: nat)
    requires k < |lines|
    ensures Kinds(lines[k..]) == [Classify(lines[k])] + Kinds(lines[k + 1..])
  {
    assert lines[k..][0] == lines[k] && lines[k..][1..] == lines[k + 1..];
  }

  method CountHeaders(lines: seq<string>) returns (n: nat)
    ensures n == HeaderCount(Kinds(lines))
  {
    n := 0;
    assert lines[0..] == lines;
    for k := 0 to |lines|
      invariant n + HeaderCount(Kinds(lines[k..])) == HeaderCount(Kinds(lines))
    {
      KindsAt(lines, k);
      CountStep(Classify(lines[k]), Kinds(lines[k + 1..]));
      if IsHeader(lines[k]) {
        n := n + 1;
      }
    }
  }

  lemma CountStep(kind: Kind, rest: seq<Kind>)
    ensures HeaderCount([kind] + rest) == HeaderCount(rest) + (if kind == Header then 1 else 0)
  {
    assert ([kind] + rest)[1..] == rest;
  }

  /** The line loop has collected `r` and still has `rest` to read; the next header takes path `section`. */
  ghost predicate ScannedTo(kinds: seq<Kind>, paths: seq<Bytes>, rest: seq<Kind>, section: nat,
                            current: Option<Bytes>, r: seq<Violation>)
    requires HeaderCount(kinds) == |paths|
  {
    && section + HeaderCount(rest) == |paths|
    && Scan(kinds, paths, None) == r + Scan(rest, paths[section..], current)
  }

  lemma ScanStep(kinds: seq<Kind>, paths: seq<Bytes>, kind: Kind, rest: seq<Kind>, section: nat,
                 current: Option<Bytes>, r: seq<Violation>)
    requires HeaderCount(kinds) == |paths|
    requires ScannedTo(kinds, paths, [kind] + rest, section, current, r)
    ensures if kind == Header
            then section < |paths| && ScannedTo(kinds, paths, rest, section + 1, Some(paths[section]), r)
            else ScannedTo(kinds, paths, rest, section, current, r + KindViolations(kind, current))
  {
    hide KindViolations, HeaderCount;
    CountStep(kind, rest);
    var all := [kind] + rest;
    assert all[0] == kind && all[1..] == rest;
    if kind == Header {
      assert paths[section..][1..] == paths[section + 1..] && paths[section..][0] == paths[section];
      assert Scan(all, paths[section..], current) == Scan(rest, paths[section + 1..], Some(paths[section]));
    } else {
      assert Scan(all, paths[section..], current)
             == KindViolations(kind, current) + Scan(rest, paths[section..], current);
    }
  }

  /** The line loop: `section` never runs past the parsed paths. None when the decoder raises. */
  method ScanLines(lines: seq<string>, paths: seq<Bytes>) returns (r: Option<seq<Violation>>)
    requires HeaderCount(Kinds(lines)) == |paths|
    ensures var scanned := Scan(Kinds(lines), paths, None); r == if BadQuoting in scanned then None else Some(scanned)
  {
    hide Classify, KindViolations, Scan;
    var found: seq<Violation> := [];
    var section := 0;
    var current: Option<Bytes> := None;
    assert lines[0..] == lines && paths[0..] == paths;
    for k := 0 to |lines|
      invariant ScannedTo(Kinds(lines), paths, Kinds(lines[k..]), section, current, found) && BadQuoting !in found
    {
      var kind := Classify(lines[k]);
      KindsAt(lines, k);
      ScanStep(Kinds(lines), paths, kind, Kinds(lines[k + 1..]), section, current, found);
      if kind == Header {
        current := Some(paths[section]);
        section := section + 1;
      } else {
        found := found + KindViolations(kind, current);
        if BadQuoting in found {
          return None;
        }
      }
    }
    ScanNothing(paths[section..], current);
    assert lines[|lines|..] == [] && found + [] == found;
    r := Some(found);
  }

  lemma ScanNothing(paths: seq<Bytes>, current: Option<Bytes>)
    ensures Scan([], paths, current) == []
  {
  }

  method PatchGate(text: string, numstat: Option<seq<Bytes>>) returns (r: Outcome)
    ensures r == Gate(text, numstat)
  {
    if numstat.None? {
      return Reports([ParseFailed]);
    }
    var paths, lines := numstat.value, Split(text, NEWLINE);
    var headers := CountHeaders(lines);
    if headers != |paths| {
      return Reports([CountMismatch(headers, |paths|)]);
    }
    var scanned := ScanLines(lines, paths);
    if scanned.None? {
      return Raises;
    }
    var violations := JudgePaths(paths, scanned.value);
    r := Reports(Dedup(violations));
  }

  // ---------------------------------------------------------------- git's own path list

  const NUL: Byte := 0
  const TAB: Byte := 9

  /** `rec.split(b"\t", 2)` has three parts exactly when the record holds two tabs; the third is the path. */
  function RecordPath(record: Bytes): Option<Bytes> {
    if TAB !in record then None
    else
      var rest := AfterTab(record);
      if TAB !in rest then None else Some(AfterTab(rest))
  }

  function AfterTab(b: Bytes): Bytes
    requires TAB in b
  {
    if b[0] == TAB then b[1..] else AfterTab(b[1..])
  }

  function RecordPaths(records: seq<Bytes>): Option<seq<Bytes>> {
    if records == [] then Some([])
    else if records[0] == [] then RecordPaths(records[1..])
    else
      match RecordPath(records[0])
      case None => None
      case Some(path) => Append([path], RecordPaths(records[1..]))
  }

  /** `_numstat_paths` on git's exit code and output; a call that raised is `None`. */
  function NumstatPaths(answer: Option<(int, Bytes)>): Option<seq<Bytes>> {
    if answer.None? || answer.value.0 != 0 then None else RecordPaths(Split(answer.value.1, NUL))
  }

  method ParseNumstat(answer: Option<(int, Bytes)>) returns (r: Option<seq<Bytes>>)
    ensures r == NumstatPaths(answer)
  {
    if answer.None? || answer.value.0 != 0 {
      return None;
    }
    var records := Split(answer.value.1, NUL);
    var paths: seq<Bytes> := [];
    assert records[0..] == records;
    for k := 0 to |records|
      invariant RecordPaths(records) == Append(paths, RecordPaths(records[k..]))
    {
      assert records[k..][0] == records[k] && records[k..][1..] == records[k + 1..];
      if records[k] == [] {
        continue;
      }
      var part := RecordPath(records[k]);
      if part.None? {
        return None;
      }
      AppendStep(paths, part.value, RecordPaths(records[k + 1..]));
      paths := paths + [part.value];
    }
    r := Some(paths);
  }

  function Append(front: seq<Bytes>, rest: Option<seq<Bytes>>): (r: Option<seq<Bytes>>)
    ensures front == [] ==> r == rest
    ensures rest == Some([]) ==> r == Some(front)
  {
    match rest
    case None => None
    case Some(tail) =>
      assert front + [] == front && [] + tail == tail;
      Some(front + tail)
  }

  lemma AppendStep(front: seq<Bytes>, path: Bytes, rest: Option<seq<Bytes>>)
    ensures Append(front, Append([path], rest)) == Append(front + [path], rest)
  {
    if rest.Some? {
      assert front + ([path] + rest.value) == front + [path] + rest.value;
    }
  }

  /** One numstat entry as git prints it with `-z`: counts (or `-`), tabs, the raw path. */
  datatype Entry = Entry(added: Bytes, deleted: Bytes, path: Bytes)

  predicate GoodEntry(e: Entry) {
    && TAB !in e.added && NUL !in e.added && TAB !in e.deleted && NUL !in e.deleted
    && NUL !in e.path
  }

  function Record(e: Entry): Bytes {
    e.added + [TAB] + (e.deleted + [TAB] + e.path)
  }

  lemma {:induction false} AfterFirstTab(front: Bytes, rest: Bytes)
    requires TAB !in front
    ensures AfterTab(front + [TAB] + rest) == rest
  {
    var b := front + [TAB] + rest;
    if front == [] {
      assert b[0] == TAB && b[1..] == rest;
    } else {
      assert b[0] == front[0] && b[1..] == front[1..] + [TAB] + rest;
      AfterFirstTab(front[1..], rest);
    }
  }

  lemma RecordPathOf(e: Entry)
    requires GoodEntry(e)
    ensures Record(e) != [] && NUL !in Record(e) && RecordPath(Record(e)) == Some(e.path)
  {
    AfterFirstTab(e.added, e.deleted + [TAB] + e.path);
    AfterFirstTab(e.deleted, e.path);
    assert TAB in Record(e) && TAB in e.deleted + [TAB] + e.path;
  }

  function Records(entries: seq<Entry>): seq<Bytes> {
    if entries == [] then [] else [Record(entries[0])] + Records(entries[1..])
  }

  function EntryPaths(entries: seq<Entry>): seq<Bytes> {
    if entries == [] then [] else [entries[0].path] + EntryPaths(entries[1..])
  }

  lemma {:induction false} RecordsRead(entries: seq<Entry>)
    requires forall e | e in entries :: GoodEntry(e)
    ensures forall r | r in Records(entries) :: NUL !in r
    ensures RecordPaths(Records(entries) + [[]]) == Some(EntryPaths(entries))
  {
    if entries == [] {
      assert RecordPaths([[]]) == RecordPaths([]);
    } else {
      RecordPathOf(entries[0]);
      RecordsRead(entries[1..]);
      assert (Records(entries) + [[]])[1..] == Records(entries[1..]) + [[]];
    }
  }

  /** Names with spaces, tabs, newlines or any other byte but NUL arrive raw and in patch order. */
  lemma NumstatRoundTrip(entries: seq<Entry>)
    requires forall e | e in entries :: GoodEntry(e)
    ensures NumstatPaths(Some((0, Unlines(Records(entries), NUL)))) == Some(EntryPaths(entries))
  {
    RecordsRead(entries);
    SplitUnlines(Records(entries), NUL);
  }
}
