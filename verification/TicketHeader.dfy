/** The ticket header grammar and its two readers (launcher/ticket.py:47-59, 179-241;
    launcher/ticketcheck.py:98-136). */
module TicketHeader {
  import opened Text

  datatype Kind = Impl | Test | Docs | Edit | Accept

  function Word(k: Kind): string {
    match k
    case Impl => "impl"
    case Test => "test"
    case Docs => "docs"
    case Edit => "edit"
    case Accept => "accept"
  }

  // ---------------------------------------------------------------- lines

  /** Where `str.splitlines` ends a line. */
  predicate Breaks(c: char) {
    var n := c as int;
    0x0A <= n <= 0x0D || 0x1C <= n <= 0x1E || n == 0x85 || n == 0x2028 || n == 0x2029
  }

  function LineEnd(s: string): (n: nat)
    ensures n <= |s|
    ensures forall i | 0 <= i < n :: !Breaks(s[i])
    ensures n < |s| ==> Breaks(s[n])
  {
    if s == "" || Breaks(s[0]) then 0 else 1 + LineEnd(s[1..])
  }

  /** `str.splitlines()`: a carriage return and a line feed count once; no empty last line. */
  function SplitLines(s: string): seq<string>
    decreases |s|
  {
    if s == "" then []
    else
      var n := LineEnd(s);
      if n == |s| then [s]
      else
        var width := if s[n] == '\r' && n + 1 < |s| && s[n + 1] == '\n' then 2 else 1;
        [s[..n]] + SplitLines(s[n + width..])
  }

  // ---------------------------------------------------------------- one line

  /** Whether `c` matches the lower-case ASCII literal `l` when case is ignored, as Python's `re` has
      it: both cases, and the letters Unicode folds onto `s` and `i`. */
  predicate Folds(c: char, l: char) {
    || c == l || ('a' <= l <= 'z' && c as int == l as int - 32)
    || (l == 's' && c as int == 0x17F) || (l == 'i' && (c as int == 0x130 || c as int == 0x131))
  }

  predicate FoldPrefix(s: string, word: string) {
    |word| <= |s| && forall i | 0 <= i < |word| :: Folds(s[i], word[i])
  }

  /** `word \s* none \s* $` with case ignored; `word` carries its colon. */
  predicate SaysNone(s: string, word: string) {
    && FoldPrefix(s, word)
    && var rest := LStrip(s[|word|..]);
       FoldPrefix(rest, "none") && LStrip(rest[4..]) == ""
  }

  predicate PathChar(c: char) {
    'A' <= c <= 'Z' || 'a' <= c <= 'z' || '0' <= c <= '9' || c in "_./-"
  }

  predicate PathText(s: string) {
    s != "" && forall c | c in s :: PathChar(c)
  }

  /** The path of `^kind:\s*([A-Za-z0-9_./-]+)\s*$` on a stripped line. */
  function FilePath(s: string, k: Kind): Option<string> {
    if !StartsWith(s, Word(k) + ":") then None
    else
      var path := LStrip(s[|Word(k)| + 1..]);
      if PathText(path) then Some(path) else None
  }

  function KeywordAt(s: string, word: string): bool {
    FoldPrefix(s, word) && var rest := LStrip(s[|word|..]); rest != "" && rest[0] == ':'
  }

  predicate LooksLikeHeader(s: string) {
    || KeywordAt(s, "impl") || KeywordAt(s, "test") || KeywordAt(s, "docs")
    || KeywordAt(s, "edit") || KeywordAt(s, "accept") || KeywordAt(s, "reset")
  }

  datatype Line = Skip | AcceptNone | Decl(kind: Kind, path: string) | ResetNone | Malformed | Body

  function FileLine(s: string): Option<Line> {
    if FilePath(s, Impl).Some? then Some(Decl(Impl, FilePath(s, Impl).value))
    else if FilePath(s, Test).Some? then Some(Decl(Test, FilePath(s, Test).value))
    else if FilePath(s, Docs).Some? then Some(Decl(Docs, FilePath(s, Docs).value))
    else if FilePath(s, Edit).Some? then Some(Decl(Edit, FilePath(s, Edit).value))
    else if FilePath(s, Accept).Some? then Some(Decl(Accept, FilePath(s, Accept).value))
    else None
  }

  /** One line, by the order in which the loop tries its patterns. */
  function Classify(line: string): Line {
    var s := Strip(line);
    if s == "" || s[0] == '#' then Skip
    else if SaysNone(s, "accept:") then AcceptNone
    else if FileLine(s).Some? then FileLine(s).value
    else if SaysNone(s, "reset:") then ResetNone
    else if LooksLikeHeader(s) then Malformed
    else Body
  }

  function Classes(lines: seq<string>): (r: seq<Line>)
    ensures |r| == |lines|
  {
    if lines == [] then [] else [Classify(lines[0])] + Classes(lines[1..])
  }

  // ---------------------------------------------------------------- the parser

  datatype Header = Header(entries: seq<(Kind, string)>, accepts: seq<string>, acceptNone: bool, resetNone: bool)

  const EMPTY := Header([], [], false, false)

  function Take(h: Header, line: Line): Header
    requires line.Decl?
  {
    if line.kind != Accept then h.(entries := h.entries + [(line.kind, line.path)])
    else if line.path in h.accepts then h
    else h.(accepts := h.accepts + [line.path])
  }

  /** The header loop from state `h`; None is the ValueError for a malformed line. */
  function Collect(lines: seq<Line>, h: Header): Option<Header> {
    if lines == [] then Some(h)
    else
      match lines[0]
      case Skip => Collect(lines[1..], h)
      case AcceptNone => Collect(lines[1..], h.(acceptNone := true))
      case Decl(_, _) => Collect(lines[1..], Take(h, lines[0]))
      case ResetNone => Collect(lines[1..], h.(resetNone := true))
      case Malformed => None
      case Body => Some(h)
  }

  function ReadHeader(text: string): Option<Header> {
    Collect(Classes(SplitLines(text)), EMPTY)
  }

  lemma ClassesAt(lines: seq<string>, k: nat)
    requires k < |lines|
    ensures Classes(lines[k..]) == [Classify(lines[k])] + Classes(lines[k + 1..])
  {
    assert lines[k..][0] == lines[k] && lines[k..][1..] == lines[k + 1..];
  }

  lemma CollectStep(line: Line, rest: seq<Line>, h: Header)
    ensures Collect([line] + rest, h) ==
            match line
            case Skip => Collect(rest, h)
            case AcceptNone => Collect(rest, h.(acceptNone := true))
            case Decl(_, _) => Collect(rest, Take(h, line))
            case ResetNone => Collect(rest, h.(resetNone := true))
            case Malformed => None
            case Body => Some(h)
  {
    assert ([line] + rest)[1..] == rest;
  }

  /** The header loop of `parse_ticket_header`. */
  method ParseHeader(text: string) returns (r: Option<Header>)
    ensures r == ReadHeader(text)
  {
    var lines := SplitLines(text);
    var entries: seq<(Kind, string)>, accepts: seq<string> := [], [];
    var acceptNone, resetNone := false, false;
    assert lines[0..] == lines;
    for k := 0 to |lines|
      invariant Collect(Classes(lines[k..]), Header(entries, accepts, acceptNone, resetNone)) == ReadHeader(text)
    {
      var line := Classify(lines[k]);
      ClassesAt(lines, k);
      CollectStep(line, Classes(lines[k + 1..]), Header(entries, accepts, acceptNone, resetNone));
      match line {
        case Skip =>
        case AcceptNone => acceptNone := true;
        case Decl(kind, path) =>
          if kind == Accept {
            if path !in accepts {
              accepts := accepts + [path];
            }
          } else {
            entries := entries + [(kind, path)];
          }
        case ResetNone => resetNone := true;
        case Malformed => return None;
        case Body => return Some(Header(entries, accepts, acceptNone, resetNone));
      }
    }
    r := Some(Header(entries, accepts, acceptNone, resetNone));
  }

  // ---------------------------------------------------------------- the second reader

  /** What `_checked_declarations` collects: test and accept lines in order, and the edit paths. */
  datatype Checked = Checked(entries: seq<(Kind, string)>, seenAccept: seq<string>, edits: seq<string>)

  function Note(c: Checked, kind: Kind, path: string): Checked {
    match kind
    case Accept =>
      if path in c.seenAccept then c
      else c.(seenAccept := c.seenAccept + [path], entries := c.entries + [(kind, path)])
    case Edit => if path in c.edits then c else c.(edits := c.edits + [path])
    case Test => c.(entries := c.entries + [(kind, path)])
    case _ => c
  }

  /** The checker's loop: it knows no malformed line, so one simply ends the header. */
  function Recover(lines: seq<Line>, c: Checked): Checked {
    if lines == [] then c
    else
      match lines[0]
      case Skip => Recover(lines[1..], c)
      case AcceptNone => Recover(lines[1..], c)
      case Decl(kind, path) => Recover(lines[1..], Note(c, kind, path))
      case ResetNone => Recover(lines[1..], c)
      case Malformed => c
      case Body => c
  }

  function ReadChecked(text: string): Checked {
    Recover(Classes(SplitLines(text)), Checked([], [], []))
  }

  lemma RecoverStep(line: Line, rest: seq<Line>, c: Checked)
    ensures Recover([line] + rest, c) ==
            if line.Malformed? || line.Body? then c
            else Recover(rest, if line.Decl? then Note(c, line.kind, line.path) else c)
  {
    assert ([line] + rest)[1..] == rest;
  }

  method CheckedDeclarations(text: string) returns (r: Checked)
    ensures r == ReadChecked(text)
  {
    var lines := SplitLines(text);
    var entries: seq<(Kind, string)>, seenAccept: seq<string>, edits: seq<string> := [], [], [];
    assert lines[0..] == lines;
    for k := 0 to |lines|
      invariant Recover(Classes(lines[k..]), Checked(entries, seenAccept, edits)) == ReadChecked(text)
    {
      var line := Classify(lines[k]);
      ClassesAt(lines, k);
      RecoverStep(line, Classes(lines[k + 1..]), Checked(entries, seenAccept, edits));
      if line.Malformed? || line.Body? {
        return Checked(entries, seenAccept, edits);
      }
      if line.Decl? {
        if line.kind == Accept {
          if line.path !in seenAccept {
            seenAccept := seenAccept + [line.path];
            entries := entries + [(line.kind, line.path)];
          }
        } else if line.kind == Edit {
          if line.path !in edits {
            edits := edits + [line.path];
          }
        } else if line.kind == Test {
          entries := entries + [(line.kind, line.path)];
        }
      }
    }
    r := Checked(entries, seenAccept, edits);
  }

  /** The paths of one kind, in order. */
  function OfKind(entries: seq<(Kind, string)>, kind: Kind): seq<string> {
    if entries == [] then []
    else
      var last := entries[|entries| - 1];
      OfKind(entries[..|entries| - 1], kind) + (if last.0 == kind then [last.1] else [])
  }

  lemma OfKindSnoc(entries: seq<(Kind, string)>, e: (Kind, string), kind: Kind)
    ensures OfKind(entries + [e], kind) == if e.0 == kind then OfKind(entries, kind) + [e.1] else OfKind(entries, kind)
  {
    assert (entries + [e])[..|entries|] == entries;
    assert OfKind(entries, kind) + [] == OfKind(entries, kind);
  }

  lemma DedupSnoc(xs: seq<string>, x: string)
    ensures Dedup(xs + [x]) == if x in xs then Dedup(xs) else Dedup(xs) + [x]
  {
    assert (xs + [x])[..|xs|] == xs;
  }

  /** The two readers have seen the same declarations. */
  ghost predicate Agree(h: Header, c: Checked) {
    && c.edits == Dedup(OfKind(h.entries, Edit))
    && c.seenAccept == h.accepts && OfKind(c.entries, Accept) == h.accepts
    && OfKind(c.entries, Test) == OfKind(h.entries, Test)
  }

  lemma AgreeStep(h: Header, c: Checked, line: Line)
    requires Agree(h, c) && line.Decl?
    ensures Agree(Take(h, line), Note(c, line.kind, line.path))
  {
    hide Dedup, OfKind;
    var e := (line.kind, line.path);
    OfKindSnoc(h.entries, e, Edit);
    OfKindSnoc(h.entries, e, Test);
    OfKindSnoc(c.entries, e, Accept);
    OfKindSnoc(c.entries, e, Test);
    DedupSnoc(OfKind(h.entries, Edit), line.path);
    match line.kind {
      case Accept =>
      case Edit => assert line.path in c.edits <==> line.path in OfKind(h.entries, Edit);
      case Test =>
      case _ =>
    }
  }

  lemma {:induction false} ReadersInStep(lines: seq<Line>, h: Header, c: Checked)
    requires Agree(h, c) && Collect(lines, h).Some?
    ensures Agree(Collect(lines, h).value, Recover(lines, c))
    decreases |lines|
  {
    if lines != [] {
      var line, rest := lines[0], lines[1..];
      if line.Decl? {
        AgreeStep(h, c, line);
        ReadersInStep(rest, Take(h, line), Note(c, line.kind, line.path));
      } else if line.AcceptNone? {
        ReadersInStep(rest, h.(acceptNone := true), c);
      } else if line.ResetNone? {
        ReadersInStep(rest, h.(resetNone := true), c);
      } else if line.Skip? {
        ReadersInStep(rest, h, c);
      }
    }
  }

  /** On every text the parser accepts, the checker recovers the duplicate-free edit paths, and the
      accept and test paths in the parser's order. */
  lemma OneGrammar(text: string)
    requires ReadHeader(text).Some?
    ensures Agree(ReadHeader(text).value, ReadChecked(text))
  {
    ReadersInStep(Classes(SplitLines(text)), EMPTY, Checked([], [], []));
  }

  // ---------------------------------------------------------------- the round trip

  type Declaration = (Kind, string)

  /** A declaration a header line can carry. `accept: none`, in any case, is another statement. */
  predicate Declarable(d: Declaration) {
    PathText(d.1) && !(d.0 == Accept && |d.1| == 4 && FoldPrefix(d.1, "none"))
  }

  function Rendered(d: Declaration): string {
    Word(d.0) + ": " + d.1
  }

  function RenderedLines(ds: seq<Declaration>): seq<string> {
    if ds == [] then [] else [Rendered(ds[0])] + RenderedLines(ds[1..])
  }

  /** The header that declares exactly `ds`, entries and accept paths in order, accepts once each. */
  function Declaring(ds: seq<Declaration>): Header {
    if ds == [] then EMPTY
    else
      var d := ds[|ds| - 1];
      Take(Declaring(ds[..|ds| - 1]), Decl(d.0, d.1))
  }

  lemma PathCharPlain(c: char)
    requires PathChar(c)
    ensures !IsSpace(c) && !Breaks(c) && c != ':' && c != '#'
  {
  }

  lemma PathTextPlain(s: string)
    requires PathText(s)
    ensures LStrip(s) == s && !IsSpace(s[|s| - 1])
    ensures forall c | c in s :: !Breaks(c)
  {
    PathCharPlain(s[0]);
    PathCharPlain(s[|s| - 1]);
    forall c | c in s ensures !Breaks(c) { PathCharPlain(c); }
  }

  lemma AfterWord(d: Declaration)
    requires PathText(d.1)
    ensures var s, n := Rendered(d), |Word(d.0)|;
            s[..n] == Word(d.0) && s[n] == ':' && StartsWith(s, Word(d.0) + ":") && LStrip(s[n + 1..]) == d.1
  {
    var s, n := Rendered(d), |Word(d.0)|;
    PathTextPlain(d.1);
    hide PathText, Word;
    var rest := " " + d.1;
    assert s == Word(d.0) + ":" + rest;
    assert s[n + 1..] == rest && rest[1..] == d.1;
    assert s[..n + 1] == Word(d.0) + ":";
  }

  /** The five keywords start with five different letters. */
  lemma WordsDiffer(d: Declaration, k: Kind)
    requires k != d.0
    ensures FilePath(Rendered(d), k) == None
  {
    var s, literal := Rendered(d), Word(k) + ":";
    assert s[0] == Word(d.0)[0] && literal[0] == Word(k)[0];
    Differs(s, literal, 0);
  }

  lemma RenderedUnbroken(d: Declaration)
    requires PathText(d.1)
    ensures forall c | c in Rendered(d) :: !Breaks(c)
  {
    hide Breaks, PathText, Word;
    PathTextPlain(d.1);
    WordUnbroken(d.0);
    var head := Word(d.0) + ": ";
    assert Rendered(d) == head + d.1;
    assert forall c :: c in head + d.1 <==> c in head || c in d.1;
  }

  lemma WordUnbroken(k: Kind)
    ensures forall c | c in Word(k) + ": " :: !Breaks(c)
  {
  }

  lemma NotNone(d: Declaration)
    requires Declarable(d)
    ensures !SaysNone(Rendered(d), "accept:")
  {
    var s := Rendered(d);
    AfterWord(d);
    if d.0 == Accept {
      assert |"accept:"| == 7 && s[7..] == s[|Word(d.0)| + 1..];
      if |d.1| > 4 {
        var tail := d.1[4..];
        PathCharPlain(tail[0]);
      }
    } else {
      NotAccept(s, d);
    }
  }

  lemma NotAccept(s: string, d: Declaration)
    requires s == Rendered(d) && d.0 != Accept
    ensures !FoldPrefix(s, "accept:")
  {
    assert s[0] == Word(d.0)[0] && !Folds(s[0], 'a');
    assert "accept:"[0] == 'a';
  }

  lemma PathNotEmpty(s: string)
    requires PathText(s)
    ensures s != ""
  {
  }

  lemma WordFirst(k: Kind)
    ensures Word(k) != "" && !IsSpace(Word(k)[0]) && Word(k)[0] != '#'
  {
  }

  lemma RenderedStripped(d: Declaration)
    requires PathText(d.1)
    ensures Strip(Rendered(d)) == Rendered(d) && Rendered(d) != "" && Rendered(d)[0] != '#'
  {
    hide IsSpace, Word, LStrip, RStrip, PathText;
    var s := Rendered(d);
    WordFirst(d.0);
    PathTextPlain(d.1);
    assert d.1 != "" by { PathNotEmpty(d.1); }
    assert s[|s| - 1] == d.1[|d.1| - 1] && s[0] == Word(d.0)[0];
    StripTight(Rendered(d));
  }

  lemma RenderedFile(d: Declaration)
    requires PathText(d.1)
    ensures FileLine(Rendered(d)) == Some(Decl(d.0, d.1))
  {
    hide FilePath;
    forall k: Kind | k != d.0 ensures FilePath(Rendered(d), k) == None { WordsDiffer(d, k); }
    assert FilePath(Rendered(d), d.0) == Some(d.1) by { OwnWord(d); }
  }

  lemma OwnWord(d: Declaration)
    requires PathText(d.1)
    ensures FilePath(Rendered(d), d.0) == Some(d.1)
  {
    AfterWord(d);
  }

  /** A rendered declaration reads back as itself. */
  lemma RenderedReads(d: Declaration)
    requires Declarable(d)
    ensures Classify(Rendered(d)) == Decl(d.0, d.1)
  {
    hide Rendered, SaysNone, FileLine, LooksLikeHeader;
    RenderedStripped(d);
    NotNone(d);
    RenderedFile(d);
  }

  lemma {:induction false} LineEndOf(line: string, rest: string)
    requires forall c | c in line :: !Breaks(c)
    requires rest == "" || Breaks(rest[0])
    ensures LineEnd(line + rest) == |line|
  {
    if line == "" {
      assert line + rest == rest;
    } else {
      assert (line + rest)[1..] == line[1..] + rest;
      LineEndOf(line[1..], rest);
    }
  }

  lemma SplitFirstLine(line: string, rest: string)
    requires forall c | c in line :: !Breaks(c)
    ensures SplitLines(line + ['\n'] + rest) == [line] + SplitLines(rest)
  {
    hide LineEnd;
    var s := line + ['\n'] + rest;
    assert s == line + (['\n'] + rest);
    LineEndOf(line, ['\n'] + rest);
    assert s[..|line|] == line && s[|line| + 1..] == rest;
  }

  lemma SplitStop(stop: string, tail: string)
    requires stop != "" && (forall c | c in stop :: !Breaks(c)) && (tail == "" || Breaks(tail[0]))
    ensures SplitLines(stop + tail) != [] && SplitLines(stop + tail)[0] == stop
  {
    LineEndOf(stop, tail);
    assert (stop + tail)[..|stop|] == stop;
    if tail == "" {
      assert stop + tail == stop;
    }
  }

  lemma DeclarableText(d: Declaration)
    requires Declarable(d)
    ensures PathText(d.1)
  {
  }

  lemma {:induction false} SplitRendered(ds: seq<Declaration>, rest: string)
    requires forall d | d in ds :: Declarable(d)
    ensures SplitLines(Unlines(RenderedLines(ds), '\n') + rest) == RenderedLines(ds) + SplitLines(rest)
  {
    hide SplitLines, Rendered, Declarable, Breaks;
    if ds == [] {
      assert Unlines(RenderedLines(ds), '\n') + rest == rest;
    } else {
      var line, others := Rendered(ds[0]), Unlines(RenderedLines(ds[1..]), '\n');
      var more := others + rest;
      DeclarableText(ds[0]);
      RenderedUnbroken(ds[0]);
      assert RenderedLines(ds) == [line] + RenderedLines(ds[1..]);
      assert RenderedLines(ds)[1..] == RenderedLines(ds[1..]);
      assert Unlines(RenderedLines(ds), '\n') == line + ['\n'] + others;
      assert line + ['\n'] + others + rest == line + ['\n'] + more;
      SplitFirstLine(line, more);
      SplitRendered(ds[1..], rest);
    }
  }

  lemma {:induction false} CollectRendered(ds: seq<Declaration>, k: nat, rest: seq<string>)
    requires k <= |ds| && forall d | d in ds :: Declarable(d)
    requires rest != [] && Classify(rest[0]) == Body
    ensures Collect(Classes(RenderedLines(ds[k..]) + rest), Declaring(ds[..k])) == Some(Declaring(ds))
    decreases |ds| - k
  {
    hide Classify, Rendered, Take;
    if k == |ds| {
      assert ds[..k] == ds && RenderedLines(ds[k..]) + rest == rest;
    } else {
      var d, more := ds[k], RenderedLines(ds[k + 1..]) + rest;
      assert ds[k..][0] == d && ds[k..][1..] == ds[k + 1..];
      assert RenderedLines(ds[k..]) + rest == [Rendered(d)] + more;
      assert ([Rendered(d)] + more)[1..] == more;
      RenderedReads(d);
      CollectStep(Decl(d.0, d.1), Classes(more), Declaring(ds[..k]));
      assert ds[..k + 1][..k] == ds[..k] && ds[..k + 1][k] == d;
      CollectRendered(ds, k + 1, rest);
    }
  }

  /** Any list of valid declarations, printed one to a line and followed by a line that is no header
      line and any body at all, parses to exactly those declarations. */
  lemma HeaderRoundTrip(ds: seq<Declaration>, stop: string, tail: string)
    requires forall d | d in ds :: Declarable(d)
    requires stop != "" && (forall c | c in stop :: !Breaks(c)) && Classify(stop) == Body
    requires tail == "" || Breaks(tail[0])
    ensures ReadHeader(Unlines(RenderedLines(ds), '\n') + (stop + tail)) == Some(Declaring(ds))
  {
    SplitRendered(ds, stop + tail);
    SplitStop(stop, tail);
    CollectRendered(ds, 0, SplitLines(stop + tail));
    assert ds[0..] == ds && Declaring(ds[..0]) == EMPTY;
  }

  /** What `Declaring` declares: the other kinds in order with repeats, the accept paths once each. */
  lemma {:induction false} DeclaringMeaning(ds: seq<Declaration>, kind: Kind)
    ensures var h := Declaring(ds);
            && !h.acceptNone && !h.resetNone && h.accepts == Dedup(OfKind(ds, Accept))
            && (kind != Accept ==> OfKind(h.entries, kind) == OfKind(ds, kind))
  {
    if ds != [] {
      var init, d := ds[..|ds| - 1], ds[|ds| - 1];
      DeclaringMeaning(init, kind);
      assert ds == init + [d];
      DeclaringStep(Declaring(init), init, d, kind);
    }
  }

  lemma DeclaringStep(h: Header, ds: seq<Declaration>, d: Declaration, kind: Kind)
    requires !h.acceptNone && !h.resetNone && h.accepts == Dedup(OfKind(ds, Accept))
    requires kind != Accept ==> OfKind(h.entries, kind) == OfKind(ds, kind)
    ensures var g := Take(h, Decl(d.0, d.1));
            && !g.acceptNone && !g.resetNone && g.accepts == Dedup(OfKind(ds + [d], Accept))
            && (kind != Accept ==> OfKind(g.entries, kind) == OfKind(ds + [d], kind))
  {
    hide OfKind, Dedup;
    OfKindSnoc(ds, d, Accept);
    OfKindSnoc(ds, d, kind);
    OfKindSnoc(h.entries, d, kind);
    DedupSnoc(OfKind(ds, Accept), d.1);
  }
}
