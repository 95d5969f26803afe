/** What a ticket header line says, form by form, and what the header is made of
    (launcher/ticket.py:47-59, 179-207). */
module HeaderMeaning {
  import opened Text
  import opened TicketHeader

  predicate AllBlank(s: string) {
    forall c | c in s :: IsSpace(c)
  }

  // ---------------------------------------------------------------- stripping

  lemma StripSandwich(a: string, mid: string, c: string)
    requires AllBlank(a) && AllBlank(c) && mid != "" && !IsSpace(mid[0]) && !IsSpace(mid[|mid| - 1])
    ensures Strip(a + mid + c) == mid
  {
    hide Strip, IsSpace;
    var line := a + mid + c;
    var lo, hi := StripSpan(line);
    assert line[|a|] == mid[0] && line[|a| + |mid| - 1] == mid[|mid| - 1];
    assert lo <= |a| && hi >= |a| + |mid|;
    assert forall i | 0 <= i < |a| :: line[i] == a[i];
    assert forall i | |a| + |mid| <= i < |line| :: line[i] == c[i - |a| - |mid|];
    assert lo == |a| && hi == |a| + |mid|;
    assert line[lo..hi] == mid;
  }

  /** A line is blanks, its stripped text, blanks. */
  lemma Stripped(line: string) returns (a: string, c: string)
    ensures line == a + Strip(line) + c && AllBlank(a) && AllBlank(c)
    ensures Strip(line) != "" ==> !IsSpace(Strip(line)[0]) && !IsSpace(Strip(line)[|Strip(line)| - 1])
  {
    hide Strip, IsSpace;
    var lo, hi := StripSpan(line);
    a, c := line[..lo], line[hi..];
    forall x | x in a ensures IsSpace(x) { var i :| 0 <= i < lo && a[i] == x; assert line[i] == x; }
    forall x | x in c ensures IsSpace(x) { var i :| 0 <= i < |line| - hi && c[i] == x; assert line[hi + i] == x; }
  }

  lemma {:induction false} LStripBlank(b: string, rest: string)
    requires AllBlank(b) && (rest == "" || !IsSpace(rest[0]))
    ensures LStrip(b + rest) == rest
  {
    hide IsSpace;
    if b == "" {
      assert b + rest == rest;
    } else {
      assert (b + rest)[0] == b[0] && (b + rest)[1..] == b[1..] + rest;
      LStripBlank(b[1..], rest);
    }
  }

  lemma LStripSplits(s: string)
    ensures var n := |s| - |LStrip(s)|; s == s[..n] + LStrip(s) && AllBlank(s[..n])
  {
    hide IsSpace, LStrip;
    var n := |s| - |LStrip(s)|;
    forall x | x in s[..n] ensures IsSpace(x) { var i :| 0 <= i < n && s[i] == x; }
  }

  // ---------------------------------------------------------------- comments and blank lines

  /** Nothing but blanks, or a `#` after nothing but blanks. */
  ghost predicate Comment(line: string) {
    AllBlank(line) || exists i: nat | i < |line| :: line[i] == '#' && AllBlank(line[..i])
  }

  lemma CommentForm(line: string)
    ensures (Strip(line) == "" || Strip(line)[0] == '#') <==> Comment(line)
  {
    hide Strip, IsSpace;
    var a, c := Stripped(line);
    var s := Strip(line);
    HashUnblank();
    if s == "" {
      assert line == a + c;
    } else {
      assert line[|a|] == s[0] && line[..|a|] == a && s[0] in line;
      forall i: nat | i < |line| && line[i] == '#' && AllBlank(line[..i])
        ensures i == |a|
      {
        assert forall k | 0 <= k < |a| :: line[k] == a[k] && IsSpace(line[k]);
        assert forall k | 0 <= k < i :: line[k] == line[..i][k] && IsSpace(line[k]);
      }
    }
  }

  lemma HashUnblank()
    ensures !IsSpace('#') && !IsSpace(':')
  {
  }

  // ---------------------------------------------------------------- declarations

  /** The line declares this path: the keyword, blanks, the path, blanks around; `accept: none` does not. */
  ghost predicate Declares(line: string, kind: Kind, path: string) {
    && (exists a, b, c :: AllBlank(a) && AllBlank(b) && AllBlank(c) && line == a + Key(kind) + b + path + c)
    && PathText(path) && !(kind.Accept? && |path| == 4 && FoldPrefix(path, "none"))
  }

  function Key(kind: Kind): string {
    if kind == Impl then "impl:" else if kind == Test then "test:" else if kind == Docs then "docs:"
    else if kind == Edit then "edit:" else "accept:"
  }

  lemma KeyIs(kind: Kind)
    ensures Word(kind) + ":" == Key(kind) && |Key(kind)| == |Word(kind)| + 1
    ensures Key(kind) != "" && !IsSpace(Key(kind)[0]) && Key(kind)[0] != '#'
    ensures forall k | k != kind :: Key(k)[0] != Key(kind)[0]
  {
  }

  lemma FilePathForm(s: string, kind: Kind, path: string)
    requires s == "" || !IsSpace(s[|s| - 1])
    ensures FilePath(s, kind) == Some(path) <==>
            PathText(path) && exists b :: AllBlank(b) && s == Key(kind) + b + path
  {
    hide Word, Key, PathText, IsSpace, LStrip, AllBlank;
    KeyIs(kind);
    if FilePath(s, kind) == Some(path) {
      var b := PathFound(s, kind, path);
    }
    if PathText(path) && exists b :: AllBlank(b) && s == Key(kind) + b + path {
      var b :| AllBlank(b) && s == Key(kind) + b + path;
      assert s[..|Key(kind)|] == Key(kind) && s[|Key(kind)|..] == b + path;
      PathUnblank(path);
      LStripBlank(b, path);
    }
  }

  lemma PathFound(s: string, kind: Kind, path: string) returns (b: string)
    requires FilePath(s, kind) == Some(path)
    ensures PathText(path) && AllBlank(b) && s == Key(kind) + b + path
  {
    hide FilePath, Key, PathText, LStrip, AllBlank;
    KeyCut(s, kind, path);
    b := BlankFront(s[|Key(kind)|..]);
    Grouped(s, Key(kind), s[|Key(kind)|..], b, path);
  }

  lemma KeyCut(s: string, kind: Kind, path: string)
    requires FilePath(s, kind) == Some(path)
    ensures |Key(kind)| <= |s| && s == Key(kind) + s[|Key(kind)|..]
    ensures LStrip(s[|Key(kind)|..]) == path && PathText(path)
  {
    hide Key, PathText, LStrip, Word;
    KeyIs(kind);
  }

  lemma PathUnblank(path: string)
    requires PathText(path)
    ensures path != "" && !IsSpace(path[0]) && !IsSpace(path[|path| - 1]) && path[0] != ':'
  {
    PathCharPlain(path[0]);
    PathCharPlain(path[|path| - 1]);
  }

  lemma OneKeyword(s: string, kind: Kind, other: Kind)
    requires FilePath(s, kind).Some? && other != kind
    ensures FilePath(s, other).None?
  {
    hide PathText, Key, Word;
    KeyIs(kind);
    KeyIs(other);
  }

  lemma FileLineForm(s: string, kind: Kind, path: string)
    ensures FileLine(s) == Some(Decl(kind, path)) <==> FilePath(s, kind) == Some(path)
  {
    hide FilePath;
    forall k: Kind, other: Kind | FilePath(s, k).Some? && other != k ensures FilePath(s, other).None? {
      OneKeyword(s, k, other);
    }
    match kind
    case Impl => case Test => case Docs => case Edit => case Accept =>
  }

  /** `Key(kind) + b + path`, tight at both ends. */
  lemma TightDeclaration(kind: Kind, b: string, path: string)
    requires PathText(path)
    ensures var s := Key(kind) + b + path;
            && s != "" && !IsSpace(s[0]) && !IsSpace(s[|s| - 1]) && s[0] != '#' && s[0] == Key(kind)[0]
  {
    hide IsSpace, PathText, Key, Word;
    KeyIs(kind);
    PathUnblank(path);
    var s := Key(kind) + b + path;
    assert s[|s| - 1] == path[|path| - 1];
  }

  // ---------------------------------------------------------------- `none`

  /** `accept: none` or `reset: none`: in any case, with any blanks around. */
  ghost predicate Denies(line: string, word: string) {
    exists a, w, b, n, c ::
      AllBlank(a) && AllBlank(b) && AllBlank(c) && Folded(w, word) && Folded(n, "none") && line == a + w + b + n + c
  }

  predicate Folded(w: string, word: string) {
    |w| == |word| && FoldPrefix(w, word)
  }

  lemma FoldedPrefix(s: string, word: string)
    ensures FoldPrefix(s, word) ==> Folded(s[..|word|], word) && s == s[..|word|] + s[|word|..]
  {
  }

  lemma FoldedJoin(w: string, word: string, rest: string)
    requires Folded(w, word)
    ensures FoldPrefix(w + rest, word) && (w + rest)[|word|..] == rest
  {
  }

  lemma FoldsUnblank(c: char, l: char)
    requires Folds(c, l) && 'a' <= l <= 'z'
    ensures !IsSpace(c) && c != '#' && c != ':'
  {
  }

  predicate Letters(word: string) {
    word != "" && forall i | 0 <= i < |word| :: 'a' <= word[i] <= 'z'
  }

  lemma FoldedEnds(w: string, word: string)
    requires Folded(w, word) && Letters(word)
    ensures w != "" && !IsSpace(w[0]) && !IsSpace(w[|w| - 1]) && w[0] != '#'
  {
    FoldsUnblank(w[0], word[0]);
    FoldsUnblank(w[|w| - 1], word[|w| - 1]);
  }

  lemma NoneFound(s: string, word: string) returns (w: string, b: string, n: string)
    requires SaysNone(s, word) && (s == "" || !IsSpace(s[|s| - 1]))
    ensures Folded(w, word) && AllBlank(b) && Folded(n, "none") && s == w + b + n
  {
    hide FoldPrefix, IsSpace, Folded, LStrip, AllBlank;
    FoldedPrefix(s, word);
    w := s[..|word|];
    n := LStrip(s[|word|..]);
    b := BlankFront(s[|word|..]);
    Grouped(s, w, s[|word|..], b, n);
    FoldedPrefix(n, "none");
    FoldLength(n, "none");
    NothingAfter(w + b, n);
    Whole(n);
  }

  lemma BlankFront(tail: string) returns (b: string)
    ensures AllBlank(b) && tail == b + LStrip(tail)
  {
    hide IsSpace, LStrip, AllBlank;
    LStripSplits(tail);
    b := tail[..|tail| - |LStrip(tail)|];
  }

  lemma Grouped(s: string, w: string, tail: string, b: string, n: string)
    requires s == w + tail && tail == b + n
    ensures s == w + b + n
  {
  }

  lemma Whole(n: string)
    ensures |n| == 4 ==> n[..4] == n
  {
  }

  lemma NothingAfter(front: string, n: string)
    requires |n| >= 4 && LStrip(n[4..]) == "" && !IsSpace((front + n)[|front + n| - 1])
    ensures |n| == 4
  {
    hide IsSpace, LStrip, AllBlank;
    LStripEmpty(n[4..]);
    SameLast(front, n);
  }

  lemma SameLast(front: string, n: string)
    ensures |n| > 4 ==> n[4..] != "" && n[4..][|n[4..]| - 1] == (front + n)[|front + n| - 1]
  {
  }

  lemma FoldLength(s: string, word: string)
    ensures FoldPrefix(s, word) ==> |word| <= |s|
  {
  }

  lemma NoneSaid(w: string, b: string, n: string, word: string)
    requires Folded(w, word) && AllBlank(b) && Folded(n, "none")
    ensures SaysNone(w + b + n, word) && n != "" && !IsSpace(n[|n| - 1])
  {
    hide FoldPrefix, IsSpace, Folded, LStrip, AllBlank, Letters;
    NoneLetters();
    assert w + b + n == w + (b + n);
    FoldedJoin(w, word, b + n);
    FoldedEnds(n, "none");
    LStripBlank(b, n);
    assert n + "" == n;
    FoldedJoin(n, "none", "");
    NothingLeft();
  }

  lemma NothingLeft()
    ensures LStrip("") == ""
  {
  }

  lemma NoneLetters()
    ensures Letters("none") && |"none"| == 4
  {
  }

  lemma LStripEmpty(s: string)
    ensures LStrip(s) == "" ==> AllBlank(s)
    ensures AllBlank(s) && s != "" ==> IsSpace(s[|s| - 1])
  {
    hide IsSpace, LStrip;
    LStripSplits(s);
    if LStrip(s) == "" { assert s[..|s|] == s; }
  }

  /** The stripped text says `none` exactly if the line does. */
  lemma DeniesForm(line: string, word: string, letters: string)
    requires word == letters + ":" && Letters(letters)
    ensures SaysNone(Strip(line), word) <==> Denies(line, word)
  {
    hide Strip, IsSpace, Folded, AllBlank, SaysNone, Letters;
    var s := Strip(line);
    if SaysNone(s, word) {
      var a, c := Stripped(line);
      var w, b, n := NoneFound(s, word);
      assert line == a + w + b + n + c;
    }
    if a, w, b, n, c :| AllBlank(a) && AllBlank(b) && AllBlank(c) && Folded(w, word) && Folded(n, "none")
                        && line == a + w + b + n + c {
      NoneSaid(w, b, n, word);
      WordEnds(w, letters);
      var mid := w + b + n;
      assert mid[0] == w[0] && mid[|mid| - 1] == n[|n| - 1] && line == a + mid + c;
      StripSandwich(a, mid, c);
    }
  }

  lemma WordEnds(w: string, letters: string)
    requires Folded(w, letters + ":") && Letters(letters)
    ensures w != "" && !IsSpace(w[0]) && w[0] != '#' && Folds(w[0], letters[0])
  {
    FoldsUnblank(w[0], letters[0]);
  }

  // ---------------------------------------------------------------- keywords

  /** The line begins with this word, in any case, and after blanks a colon. */
  ghost predicate KeywordLine(line: string, word: string) {
    exists a, w, b, rest :: AllBlank(a) && AllBlank(b) && Folded(w, word) && line == a + w + b + ":" + rest
  }

  lemma KeywordForm(line: string, word: string)
    requires Letters(word)
    ensures KeywordAt(Strip(line), word) <==> KeywordLine(line, word)
  {
    hide Strip, IsSpace, Folded, AllBlank, Letters, LStrip, FoldPrefix;
    if KeywordAt(Strip(line), word) {
      var a, c := Stripped(line);
      var w, b, rest := KeywordFound(Strip(line), word);
      assert line == a + w + b + ":" + (rest + c);
    }
    if a, w, b, rest :| AllBlank(a) && AllBlank(b) && Folded(w, word) && line == a + w + b + ":" + rest {
      KeywordSeen(a, w, b, rest, word);
    }
  }

  lemma KeywordFound(s: string, word: string) returns (w: string, b: string, rest: string)
    requires KeywordAt(s, word)
    ensures Folded(w, word) && AllBlank(b) && s == w + b + ":" + rest
  {
    hide IsSpace, Folded, AllBlank, Letters, LStrip, FoldPrefix;
    FoldedPrefix(s, word);
    w := s[..|word|];
    var tail := s[|word|..];
    LStripSplits(tail);
    var colon := LStrip(tail);
    b, rest := tail[..|tail| - |colon|], colon[1..];
    assert colon == ":" + rest && tail == b + colon && s == w + tail;
    assert w + (b + (":" + rest)) == w + b + ":" + rest;
  }

  lemma KeywordSeen(a: string, w: string, b: string, rest: string, word: string)
    requires AllBlank(a) && AllBlank(b) && Folded(w, word) && Letters(word)
    ensures KeywordAt(Strip(a + w + b + ":" + rest), word)
  {
    hide Strip, IsSpace, Folded, AllBlank, Letters, LStrip, FoldPrefix;
    FoldedEnds(w, word);
    HashUnblank();
    var front := w + b + ":";
    var line := a + w + b + ":" + rest;
    assert line == a + front + rest && front[0] == w[0] && front[|front| - 1] == ':';
    var more := FrontStays(a, front, rest);
    assert front + more == w + (b + (":" + more));
    FoldedJoin(w, word, b + (":" + more));
    assert (":" + more)[0] == ':';
    LStripBlank(b, ":" + more);
  }

  /** Stripping keeps a text whose ends are no blanks, whatever follows it. */
  lemma FrontStays(a: string, front: string, rest: string) returns (more: string)
    requires AllBlank(a) && front != "" && !IsSpace(front[0]) && !IsSpace(front[|front| - 1])
    ensures Strip(a + front + rest) == front + more
  {
    hide Strip, IsSpace;
    var line := a + front + rest;
    var lo, hi := StripSpan(line);
    assert line[|a|] == front[0] && line[|a| + |front| - 1] == front[|front| - 1];
    assert forall i | 0 <= i < |a| :: line[i] == a[i];
    assert lo == |a| && hi >= |a| + |front|;
    more := line[|a| + |front|..hi];
    assert line[lo..hi] == front + more;
  }

  // ---------------------------------------------------------------- one line

  ghost predicate AnyKeyword(line: string) {
    || KeywordLine(line, "impl") || KeywordLine(line, "test") || KeywordLine(line, "docs")
    || KeywordLine(line, "edit") || KeywordLine(line, "accept") || KeywordLine(line, "reset")
  }

  lemma Keywords(line: string)
    ensures LooksLikeHeader(Strip(line)) <==> AnyKeyword(line)
  {
    hide KeywordAt, KeywordLine, Strip;
    KeywordForm(line, "impl");
    KeywordForm(line, "test");
    KeywordForm(line, "docs");
    KeywordForm(line, "edit");
    KeywordForm(line, "accept");
    KeywordForm(line, "reset");
  }

  lemma DeclaresForm(line: string, kind: Kind, path: string)
    ensures FilePath(Strip(line), kind) == Some(path) && !SaysNone(Strip(line), "accept:") <==>
            Declares(line, kind, path)
  {
    hide Strip, IsSpace, AllBlank, FilePath, SaysNone, PathText, Key, FoldPrefix;
    if FilePath(Strip(line), kind) == Some(path) {
      var a, c := Stripped(line);
      var b := PathFound(Strip(line), kind, path);
      assert line == a + Key(kind) + b + path + c;
      NoneOrPath(kind, b, path);
    }
    if Declares(line, kind, path) {
      var a, b, c :| AllBlank(a) && AllBlank(b) && AllBlank(c) && line == a + Key(kind) + b + path + c;
      TightDeclaration(kind, b, path);
      var mid := Key(kind) + b + path;
      assert line == a + mid + c;
      StripSandwich(a, mid, c);
      FilePathForm(mid, kind, path);
      NoneOrPath(kind, b, path);
    }
  }

  /** A declaration reads as `accept: none` exactly if that is what it spells. */
  lemma NoneOrPath(kind: Kind, b: string, path: string)
    requires PathText(path) && AllBlank(b)
    ensures SaysNone(Key(kind) + b + path, "accept:") <==> kind.Accept? && |path| == 4 && FoldPrefix(path, "none")
  {
    hide IsSpace, AllBlank, PathText, LStrip, FoldPrefix, Key, SaysNone;
    var s := Key(kind) + b + path;
    PathUnblank(path);
    if kind.Accept? {
      AcceptKey();
      assert s == "accept:" + (b + path);
      LStripBlank(b, path);
      AfterAccept("accept:", b + path);
      FoldLength(path, "none");
      PathAfter(path);
    } else {
      assert s == Key(kind) + (b + path);
      NotAcceptKey(kind, s);
      NoneFolds(s, "accept:");
    }
  }

  lemma AcceptKey()
    ensures Key(Accept) == "accept:"
  {
  }

  lemma AfterAccept(word: string, tail: string)
    ensures var rest := LStrip(tail);
            SaysNone(word + tail, word) <==> FoldPrefix(rest, "none") && |rest| >= 4 && LStrip(rest[4..]) == ""
  {
    hide LStrip, FoldPrefix;
    var s := word + tail;
    SelfFolds(word, s);
    assert s[|word|..] == tail;
    FoldLength(LStrip(tail), "none");
  }

  lemma NoneFolds(s: string, word: string)
    ensures SaysNone(s, word) ==> FoldPrefix(s, word)
  {
  }

  lemma PathAfter(path: string)
    requires PathText(path)
    ensures |path| > 4 ==> LStrip(path[4..]) != ""
    ensures |path| == 4 ==> LStrip(path[4..]) == ""
  {
    if |path| > 4 {
      assert path[4] in path;
      PathCharPlain(path[4]);
    }
  }

  lemma SelfFolds(word: string, s: string)
    requires word <= s
    ensures FoldPrefix(s, word)
  {
  }

  lemma NotAcceptKey(kind: Kind, s: string)
    requires !kind.Accept? && Key(kind) <= s
    ensures !FoldPrefix(s, "accept:")
  {
    assert s[0] == Key(kind)[0] && !Folds(s[0], 'a') && "accept:"[0] == 'a';
  }

  /** `reset: none` is no declaration: no keyword begins with an r. */
  lemma ResetAlone(line: string)
    ensures SaysNone(Strip(line), "reset:") ==> FileLine(Strip(line)).None? && !SaysNone(Strip(line), "accept:")
  {
    hide Strip, LStrip, PathText;
    var s := Strip(line);
    if SaysNone(s, "reset:") {
      assert Folds(s[0], "reset:"[0]) && "reset:"[0] == 'r' && "accept:"[0] == 'a';
      forall k: Kind ensures FilePath(s, k).None? { KeyIs(k); NoR(s, k); }
    }
  }

  lemma NoR(s: string, k: Kind)
    requires s != "" && Folds(s[0], 'r')
    ensures FilePath(s, k).None?
  {
  }

  lemma NoComment(line: string, word: string, letters: string)
    requires word == letters + ":" && Letters(letters) && SaysNone(Strip(line), word)
    ensures Strip(line) != "" && Strip(line)[0] != '#'
  {
    hide Strip, LStrip;
    var s := Strip(line);
    assert word[0] == letters[0];
    WordEnds(s[..|word|], letters);
  }

  lemma NoCommentPath(line: string, kind: Kind)
    requires FilePath(Strip(line), kind).Some?
    ensures Strip(line) != "" && Strip(line)[0] != '#'
  {
    hide Strip, LStrip, PathText;
    KeyIs(kind);
  }

  /** What each line of a header is, by its own form, whatever is tried first. */
  lemma LineMeaning(line: string)
    ensures Classify(line) == Skip <==> Comment(line)
    ensures forall kind, path :: Classify(line) == Decl(kind, path) <==> Declares(line, kind, path)
    ensures Classify(line) == AcceptNone <==> Denies(line, "accept:")
    ensures Classify(line) == ResetNone <==> Denies(line, "reset:")
    ensures Classify(line) == Malformed || Classify(line) == Body <==>
            && !Comment(line) && !Denies(line, "accept:") && !Denies(line, "reset:")
            && forall kind, path :: !Declares(line, kind, path)
    ensures Classify(line) == Malformed || Classify(line) == Body ==>
            (Classify(line) == Malformed <==> AnyKeyword(line))
  {
    hide Strip, SaysNone, FileLine, LooksLikeHeader, Comment, Denies, Declares, AnyKeyword, FilePath, Letters;
    var s := Strip(line);
    CommentForm(line);
    WordLetters();
    DeniesForm(line, "accept:", "accept");
    DeniesForm(line, "reset:", "reset");
    ResetAlone(line);
    Keywords(line);
    if SaysNone(s, "accept:") { NoComment(line, "accept:", "accept"); }
    if SaysNone(s, "reset:") { NoComment(line, "reset:", "reset"); }
    forall kind, path
      ensures FileLine(s) == Some(Decl(kind, path)) && !SaysNone(s, "accept:") <==> Declares(line, kind, path)
      ensures FileLine(s) == Some(Decl(kind, path)) ==> s != "" && s[0] != '#'
    {
      DeclaresForm(line, kind, path);
      FileLineForm(s, kind, path);
      if FilePath(s, kind).Some? { NoCommentPath(line, kind); }
    }
    FileLineDeclares(s);
  }

  lemma FileLineDeclares(s: string)
    ensures FileLine(s).Some? ==> FileLine(s).value.Decl?
  {
  }

  lemma WordLetters()
    ensures Letters("accept") && Letters("reset") && "accept" + ":" == "accept:" && "reset" + ":" == "reset:"
  {
  }

  // ---------------------------------------------------------------- where lines end

  /** A line end: one of these characters, or a carriage return with its line feed. */
  predicate LineBreak(sep: string) {
    || sep == "\r\n"
    || (|sep| == 1 && sep[0] as int in {0x0A, 0x0B, 0x0C, 0x0D, 0x1C, 0x1D, 0x1E, 0x85, 0x2028, 0x2029})
  }

  predicate Unbroken(line: string) {
    forall c | c in line :: !LineBreak([c])
  }

  lemma BreakIs(c: char)
    ensures Breaks(c) <==> LineBreak([c])
  {
  }

  /** Splitting takes off the first line with its line end, the longer of two; and a text without a line
      end is one line, the empty text none. */
  lemma SplitAt(line: string, sep: string, rest: string)
    requires Unbroken(line) && LineBreak(sep) && !(sep == "\r" && rest != "" && rest[0] == '\n')
    ensures SplitLines(line + sep + rest) == [line] + SplitLines(rest)
    ensures SplitLines(line) == if line == "" then [] else [line]
  {
    hide Breaks, LineEnd;
    forall c ensures Breaks(c) <==> LineBreak([c]) { BreakIs(c); }
    var s := line + sep + rest;
    assert s == line + (sep + rest) && line + "" == line && [sep[0]] == sep[..1];
    CrBreaks();
    LineEndOf(line, sep + rest);
    LineEndOf(line, "");
    assert s[..|line|] == line && s[|line| + |sep|..] == rest && s[|line|] == sep[0];
    if |sep| == 2 {
      assert s[|line| + 1] == '\n';
    } else if rest != "" {
      assert s[|line| + 1] == rest[0];
    }
  }

  lemma CrBreaks()
    ensures Breaks('\r') && LineBreak(['\r'])
  {
  }

  // ---------------------------------------------------------------- the header

  /** The declarations among the lines, in order. */
  function Declared(lines: seq<Line>): seq<(Kind, string)> {
    if lines == [] then []
    else
      var last := lines[|lines| - 1];
      Declared(lines[..|lines| - 1]) + if last.Decl? then [(last.kind, last.path)] else []
  }

  function NotAccepts(ds: seq<(Kind, string)>): seq<(Kind, string)> {
    if ds == [] then []
    else NotAccepts(ds[..|ds| - 1]) + if ds[|ds| - 1].0.Accept? then [] else [ds[|ds| - 1]]
  }

  /** The first `n` lines are neither malformed nor body. */
  predicate HeaderLines(lines: seq<Line>, n: nat) {
    n <= |lines| && forall i | 0 <= i < n :: !lines[i].Malformed? && !lines[i].Body?
  }

  /** What these lines declare and say, as one header. */
  ghost predicate Says(lines: seq<Line>, h: Header) {
    && h.entries == NotAccepts(Declared(lines)) && h.accepts == Dedup(OfKind(Declared(lines), Accept))
    && (h.acceptNone <==> AcceptNone in lines) && (h.resetNone <==> ResetNone in lines)
  }

  /** One more header line, taken into the header. */
  function Taken(h: Header, line: Line): Header {
    match line
    case AcceptNone => h.(acceptNone := true)
    case ResetNone => h.(resetNone := true)
    case Decl(_, _) => Take(h, line)
    case _ => h
  }

  lemma DeclaredStep(lines: seq<Line>, line: Line)
    ensures Declared(lines + [line])
            == if line.Decl? then Declared(lines) + [(line.kind, line.path)] else Declared(lines)
  {
    assert (lines + [line])[..|lines|] == lines;
    assert Declared(lines) + [] == Declared(lines);
  }

  lemma NotAcceptsStep(ds: seq<(Kind, string)>, d: (Kind, string))
    ensures NotAccepts(ds + [d]) == if d.0.Accept? then NotAccepts(ds) else NotAccepts(ds) + [d]
  {
    assert (ds + [d])[..|ds|] == ds;
    assert NotAccepts(ds) + [] == NotAccepts(ds);
  }

  lemma SaysStep(lines: seq<Line>, line: Line, h: Header)
    requires Says(lines, h)
    ensures Says(lines + [line], Taken(h, line))
  {
    hide Dedup, OfKind, Declared, NotAccepts;
    assert forall l :: l in lines + [line] <==> l in lines || l == line;
    DeclaredStep(lines, line);
    if line.Decl? {
      var ds, d := Declared(lines), (line.kind, line.path);
      NotAcceptsStep(ds, d);
      OfKindSnoc(ds, d, Accept);
      DedupSnoc(OfKind(ds, Accept), d.1);
    }
  }

  lemma {:induction false} CollectSays(lines: seq<Line>, k: nat, h: Header)
    requires HeaderLines(lines, k) && Says(lines[..k], h)
    ensures match Collect(lines[k..], h)
            case None => exists n: nat :: HeaderLines(lines, n) && n < |lines| && lines[n].Malformed?
            case Some(g) =>
              exists n: nat :: HeaderLines(lines, n) && (n < |lines| ==> lines[n].Body?) && Says(lines[..n], g)
    decreases |lines| - k
  {
    hide Says;
    if k == |lines| {
      assert lines[k..] == [] && HeaderLines(lines, k);
    } else {
      var line := lines[k];
      assert lines[k..] == [line] + lines[k + 1..];
      CollectStep(line, lines[k + 1..], h);
      if line.Malformed? || line.Body? {
        assert HeaderLines(lines, k);
      } else {
        assert lines[..k + 1] == lines[..k] + [line];
        SaysStep(lines[..k], line, h);
        CollectSays(lines, k + 1, Taken(h, line));
      }
    }
  }

  /** The parser reads the lines up to the first that is no header line. It refuses exactly if that line
      is malformed; else the header is what the lines before it declare and say. */
  lemma ParseMeaning(text: string)
    ensures var lines := Classes(SplitLines(text));
            && |lines| == |SplitLines(text)|
            && (forall k | 0 <= k < |lines| :: lines[k] == Classify(SplitLines(text)[k]))
            && match ReadHeader(text)
            case None => exists n: nat :: HeaderLines(lines, n) && n < |lines| && lines[n].Malformed?
            case Some(h) =>
              exists n: nat :: HeaderLines(lines, n) && (n < |lines| ==> lines[n].Body?) && Says(lines[..n], h)
  {
    hide SplitLines, Classes;
    var lines := Classes(SplitLines(text));
    assert lines[0..] == lines && lines[..0] == [];
    forall k | 0 <= k < |lines| ensures lines[k] == Classify(SplitLines(text)[k]) { ClassesAre(SplitLines(text), k); }
    NothingSaid();
    CollectSays(lines, 0, EMPTY);
  }

  lemma NothingSaid()
    ensures Says([], EMPTY)
  {
  }

  lemma {:induction false} ClassesAre(lines: seq<string>, k: nat)
    requires k < |lines|
    ensures Classes(lines)[k] == Classify(lines[k])
  {
    hide Classify;
    if k > 0 {
      ClassesAre(lines[1..], k - 1);
    }
  }

  // ---------------------------------------------------------------- the second reader

  /** What the second reader notes of these lines: edit and accept paths once each, test and accept lines
      in order. */
  ghost predicate Notes(lines: seq<Line>, c: Checked) {
    var ds := Declared(lines);
    && c.edits == Dedup(OfKind(ds, Edit)) && c.seenAccept == Dedup(OfKind(ds, Accept))
    && OfKind(c.entries, Accept) == c.seenAccept && OfKind(c.entries, Test) == OfKind(ds, Test)
  }

  /** The header ends before line `n`, and these are its notes. */
  ghost predicate NotedTo(lines: seq<Line>, n: nat, c: Checked) {
    HeaderLines(lines, n) && (n < |lines| ==> lines[n].Body? || lines[n].Malformed?) && Notes(lines[..n], c)
  }

  function Noted(c: Checked, line: Line): Checked {
    if line.Decl? then Note(c, line.kind, line.path) else c
  }

  lemma NotesStep(lines: seq<Line>, line: Line, c: Checked)
    requires Notes(lines, c)
    ensures Notes(lines + [line], Noted(c, line))
  {
    hide Dedup, OfKind, Declared;
    DeclaredStep(lines, line);
    if line.Decl? {
      var ds, d := Declared(lines), (line.kind, line.path);
      OfKindSnoc(ds, d, Edit);
      OfKindSnoc(ds, d, Accept);
      OfKindSnoc(ds, d, Test);
      OfKindSnoc(c.entries, d, Accept);
      OfKindSnoc(c.entries, d, Test);
      DedupSnoc(OfKind(ds, Edit), d.1);
      DedupSnoc(OfKind(ds, Accept), d.1);
    }
  }

  lemma {:induction false} RecoverNotes(lines: seq<Line>, k: nat, c: Checked)
    requires HeaderLines(lines, k) && Notes(lines[..k], c)
    ensures exists n: nat :: NotedTo(lines, n, Recover(lines[k..], c))
    decreases |lines| - k
  {
    hide Notes, Note;
    if k == |lines| {
      assert lines[k..] == [] && Recover(lines[k..], c) == c;
      assert NotedTo(lines, k, c);
    } else {
      var line := lines[k];
      assert lines[k..] == [line] + lines[k + 1..];
      RecoverStep(line, lines[k + 1..], c);
      if line.Malformed? || line.Body? {
        assert NotedTo(lines, k, c);
      } else {
        assert lines[..k + 1] == lines[..k] + [line];
        NotesStep(lines[..k], line, c);
        RecoverNotes(lines, k + 1, Noted(c, line));
      }
    }
  }

  /** On any text, also one the parser refuses, the second reader notes what is declared before the first
      line that is no header line, malformed or not. */
  lemma CheckedMeaning(text: string)
    ensures exists n: nat :: NotedTo(Classes(SplitLines(text)), n, ReadChecked(text))
  {
    var lines := Classes(SplitLines(text));
    assert lines[0..] == lines && lines[..0] == [];
    NothingNoted();
    RecoverNotes(lines, 0, Checked([], [], []));
    assert Recover(lines[0..], Checked([], [], [])) == ReadChecked(text);
  }

  lemma NothingNoted()
    ensures Notes([], Checked([], [], []))
  {
    assert OfKind([], Edit) == OfKind([], Accept) == OfKind([], Test) == [];
    assert Dedup<string>([]) == [];
  }
}
