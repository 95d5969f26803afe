/** The one evidence block in a Pod's output: `re.findall` of the nonce markers and the exactly-one rule
    (launcher/payload.py:74-79, 168-171; launcher/pod_runner.py:167-169). */
module Framing {
  import opened Text

  const BEGIN_HEAD := "__STANOK_EVIDENCE_BEGIN_"
  const END_HEAD := "__STANOK_EVIDENCE_END_"

  /** `uuid4().hex`. */
  predicate Nonce(n: string) {
    |n| == 32 && forall c | c in n :: '0' <= c <= '9' || 'a' <= c <= 'f'
  }

  function Begin(nonce: string): string {
    BEGIN_HEAD + nonce + "__"
  }

  function End(nonce: string): string {
    END_HEAD + nonce + "__"
  }

  predicate Occurs(p: string, s: string, i: nat) {
    i <= |s| && p <= s[i..]
  }

  lemma OccursInTail(p: string, s: string)
    requires s != ""
    ensures Occurs(p, s, 0) <==> p <= s
    ensures forall i: nat | i > 0 :: Occurs(p, s, i) <==> Occurs(p, s[1..], i - 1)
  {
    assert s[0..] == s;
    forall i: nat | 0 < i <= |s|
      ensures s[i..] == s[1..][i - 1..]
    {
    }
  }

  /** The leftmost occurrence. */
  function Find(p: string, s: string): (r: Option<nat>)
    ensures r.Some? ==> Occurs(p, s, r.value) && r.value + |p| <= |s|
    ensures forall i: nat | Occurs(p, s, i) :: r.Some? && r.value <= i
  {
    if s == "" then if p == "" then Some(0) else None
    else
      OccursInTail(p, s);
      if p <= s then Some(0)
      else
        var r := Find(p, s[1..]);
        if r.None? then None else Some(r.value + 1)
  }

  /** `re.findall` of the begin marker, blanks, the shortest text, blanks, the end marker. */
  function FindAll(b: string, e: string, text: string): seq<string>
    requires b != ""
    decreases |text|, 0
  {
    var i := Find(b, text);
    if i.None? then [] else Opened(b, e, text[i.value + |b|..])
  }

  /** The search goes on after a begin marker; without an end marker nothing later matches either. */
  function Opened(b: string, e: string, rest: string): seq<string>
    requires b != ""
    decreases |rest|, 1
  {
    var j := Find(e, rest);
    if j.None? then [] else [Strip(rest[..j.value])] + FindAll(b, e, rest[j.value + |e|..])
  }

  /** Blanks from `k` to `u`, and the end marker there. */
  ghost predicate Closes(e: string, rest: string, k: nat, u: nat) {
    k <= u && Occurs(e, rest, u) && forall i | k <= i < u :: IsSpace(rest[i])
  }

  /** Why `FindAll` is what the pattern matches: after the longest run of blanks (`\s*`, to `w`), the
      group that ends first (`.*?`, at `k`) and is followed by blanks and an end marker is the
      stripped text before the leftmost end marker. */
  lemma PatternGroup(e: string, rest: string) returns (w: nat, k: nat)
    requires e != "" && !IsSpace(e[0]) && Find(e, rest).Some?
    ensures var j := Find(e, rest).value;
            && w <= k <= j && rest[w..k] == Strip(rest[..j])
            && (forall i | 0 <= i < w :: IsSpace(rest[i])) && !IsSpace(rest[w]) && Closes(e, rest, k, j)
    ensures forall k2: nat, u: nat | w <= k2 && Closes(e, rest, k2, u) :: k <= k2
  {
    hide Find, Strip, IsSpace;
    var j := Find(e, rest).value;
    var s := rest[..j];
    assert rest[j] == e[0] by { assert rest[j..][0] == e[0]; }
    var lo, hi := StripSpan(s);
    assert lo < hi ==> rest[lo] == s[lo] && rest[hi - 1] == s[hi - 1];
    if lo < hi {
      w, k := lo, hi;
    } else {
      w, k := j, j;
    }
    forall k2: nat, u: nat | w <= k2
      ensures Closes(e, rest, k2, u) ==> k <= k2
    {
      if k2 < k <= u { NotBlank(e, rest, k2, u, k - 1); }
    }
  }

  lemma NotBlank(e: string, rest: string, k: nat, u: nat, i: nat)
    requires k <= i < u && i < |rest| && !IsSpace(rest[i])
    ensures !Closes(e, rest, k, u)
  {
  }

  /** What the Pod prints around its payload. */
  function Printed(nonce: string, blob: string): string {
    Begin(nonce) + "\n" + blob + "\n" + End(nonce) + "\n"
  }

  /** `extract_payload` up to the decoding: exactly one block. */
  function Block(text: string, nonce: string): Option<string> {
    var blocks := FindAll(Begin(nonce), End(nonce), text);
    if |blocks| == 1 then Some(blocks[0]) else None
  }

  /** The output before the block ends in the marker's text up to its last character or two: with the
      underscores the real marker begins with, that already reads as a begin marker. */
  predicate Straddles(pre: string, b: string) {
    |b| >= 2 && (EndsWith(pre, b[..|b| - 1]) || EndsWith(pre, b[..|b| - 2]))
  }

  /** Base64 text: no blank and no underscore in it. */
  predicate Opaque(blob: string) {
    forall c | c in blob :: c != '_' && !IsSpace(c)
  }

  // ---------------------------------------------------------------- where markers can occur

  /** What the proofs use of the two markers: underscores at both ends, one `S`, no double underscore
      near the front but the first. */
  ghost predicate Markers(b: string, e: string) {
    && |b| >= 12 && b[0] == '_' && b[1] == '_' && b[8] == '_' && b[|b| - 2] == '_' && b[|b| - 1] == '_'
    && (forall k | 0 <= k < |b| :: b[k] == 'S' <==> k == 2)
    && (forall k | 1 <= k <= 8 :: b[k] != '_' || b[k + 1] != '_')
    && |e| >= 2 && e[0] == '_' && e[1] == '_'
  }

  lemma TheMarkers(nonce: string)
    requires Nonce(nonce)
    ensures Markers(Begin(nonce), End(nonce))
  {
    var b := Begin(nonce);
    forall k | 0 <= k < |b|
      ensures b[k] == 'S' <==> k == 2
    {
      if k < |BEGIN_HEAD| {
        assert b[k] == BEGIN_HEAD[k];
      } else if k < |BEGIN_HEAD| + 32 {
        assert b[k] == nonce[k - |BEGIN_HEAD|] && nonce[k - |BEGIN_HEAD|] in nonce;
      } else {
        assert b[k] == '_';
      }
    }
  }

  lemma OccursAt(p: string, s: string, i: nat, k: nat)
    requires Occurs(p, s, i) && k < |p|
    ensures i + |p| <= |s| && s[i + k] == p[k]
  {
    assert s[i..][k] == p[k];
  }

  lemma OccursHere(p: string, pre: string, tail: string)
    ensures Occurs(p, pre + p + tail, |pre|) && (pre + p + tail)[|pre| + |p|..] == tail
  {
    assert (pre + p + tail)[|pre|..] == p + tail;
  }

  lemma OccursBefore(p: string, pre: string, tail: string, i: nat)
    requires Occurs(p, pre + tail, i) && i + |p| <= |pre|
    ensures Occurs(p, pre, i)
  {
    assert (pre + tail)[i..][..|p|] == pre[i..][..|p|];
  }

  lemma Clash(p: string, s: string, i: nat, k: nat)
    requires k < |p| && i + k < |s| && s[i + k] != p[k]
    ensures !Occurs(p, s, i)
  {
    assert s[i..][k] == s[i + k];
  }

  /** The marker overlaps a copy of itself in its last one or two characters only. */
  lemma Overlap(pre: string, b: string, e: string, tail: string, i: nat)
    requires Markers(b, e) && i < |pre| && Occurs(b, pre + b + tail, i) && Find(b, pre).None?
    ensures i + |b| == |pre| + 1 || i + |b| == |pre| + 2
    ensures Straddles(pre, b)
  {
    hide Straddles, Find;
    assert pre + b + tail == pre + (b + tail);
    NoEarlier(pre, b, b + tail, i);
    OverlapSize(pre, b, e, tail, i);
    OverlapEnds(pre, b, tail, i);
  }

  lemma NoEarlier(pre: string, b: string, tail: string, i: nat)
    requires Occurs(b, pre + tail, i) && Find(b, pre).None?
    ensures i + |b| > |pre|
  {
    hide Find;
    if i + |b| <= |pre| { OccursBefore(b, pre, tail, i); }
  }

  lemma OverlapSize(pre: string, b: string, e: string, tail: string, i: nat)
    requires Markers(b, e) && i < |pre| < i + |b|
    ensures Occurs(b, pre + b + tail, i) ==> i + |b| <= |pre| + 2
  {
    var text, k := pre + b + tail, |pre| - i;
    if k + 2 < |b| {
      assert text[i + (k + 2)] == b[2] != b[k + 2];
      Clash(b, text, i, k + 2);
    }
  }

  lemma OverlapEnds(pre: string, b: string, tail: string, i: nat)
    requires |b| >= 2 && i < |pre| < i + |b| <= |pre| + 2 && Occurs(b, pre + b + tail, i)
    ensures Straddles(pre, b)
  {
    var text, k := pre + b + tail, |pre| - i;
    assert pre[i..] == b[..k] by { assert text[i..][..k] == pre[i..]; }
    assert k == |b| - 1 || k == |b| - 2;
    assert EndsWith(pre, b[..k]);
  }

  lemma Straddling(pre: string, b: string, e: string, tail: string)
    requires Markers(b, e) && Straddles(pre, b)
    ensures Find(b, pre + b + tail).Some? && Find(b, pre + b + tail).value < |pre|
  {
    var m := if EndsWith(pre, b[..|b| - 1]) then 1 else 2;
    var i := |pre| - (|b| - m);
    var text := pre + b + tail;
    assert text[i..][..|b|] == pre[i..] + b[..m];
    assert b == b[..|b| - m] + b[..m];
    assert Occurs(b, text, i);
  }

  lemma HeadChar(blob: string, j: nat)
    requires Opaque(blob) && j < |blob| + 2
    ensures ("\n" + blob + "\n")[j] != '_'
  {
    if 0 < j <= |blob| {
      assert ("\n" + blob + "\n")[j] == blob[j - 1] && blob[j - 1] in blob;
    }
  }

  lemma FindAfter(p: string, head: string, post: string)
    requires forall j: nat | j < |head| :: !Occurs(p, head + p + post, j)
    ensures Find(p, head + p + post) == Some(|head|)
    ensures (head + p + post)[..|head|] == head && (head + p + post)[|head| + |p|..] == post
  {
    hide Find;
    OccursHere(p, head, post);
  }

  /** Everything after the begin marker, up to the first end marker, is the payload. */
  lemma TailGroup(b: string, e: string, blob: string, post: string)
    requires Opaque(blob) && Markers(b, e)
    ensures var head := "\n" + blob + "\n"; var tail := head + e + post;
            && Find(e, tail) == Some(|head|) && Strip(tail[..|head|]) == blob && tail[|head| + |e|..] == post
  {
    hide Strip, Find, Opaque, Markers, Occurs, IsSpace;
    var head := "\n" + blob + "\n";
    var tail := head + e + post;
    forall j: nat | j < |head|
      ensures !Occurs(e, tail, j)
    {
      assert head <= tail;
      NoEndBefore(b, e, blob, tail, j);
    }
    FindAfter(e, head, post);
    StripLines(blob);
  }

  lemma NoEndBefore(b: string, e: string, blob: string, tail: string, j: nat)
    requires Opaque(blob) && Markers(b, e) && "\n" + blob + "\n" <= tail && j < |blob| + 2
    ensures !Occurs(e, tail, j)
  {
    HeadChar(blob, j);
    assert tail[j] == ("\n" + blob + "\n")[j];
    Clash(e, tail, j, 0);
  }

  lemma StripLines(blob: string)
    requires Opaque(blob)
    ensures Strip("\n" + blob + "\n") == blob
  {
    hide Strip;
    var s := "\n" + blob + "\n";
    var lo, hi := StripSpan(s);
    if blob != "" {
      assert s[1] == blob[0] && s[|blob|] == blob[|blob| - 1];
      assert lo == 1 && hi == |blob| + 1;
    }
  }

  lemma ShiftOccurs(b: string, post: string, i: nat)
    requires b != "" && b[0] != '\n' && Occurs(b, "\n" + post, i)
    ensures i > 0 && Occurs(b, post, i - 1)
  {
    OccursAt(b, "\n" + post, i, 0);
    assert ("\n" + post)[i..] == post[i - 1..];
  }

  /** Text free of the begin marker holds no block, also after a line end. */
  lemma NoBlock(b: string, e: string, post: string)
    requires Markers(b, e) && Find(b, post).None?
    ensures Find(b, "\n" + post).None?
  {
    if Find(b, "\n" + post).Some? { ShiftOccurs(b, post, Find(b, "\n" + post).value); }
  }

  /** `Printed`, with the begin marker and what follows it set apart. */
  lemma PrintedParts(pre: string, nonce: string, blob: string, post: string)
    ensures pre + Printed(nonce, blob) + post
            == pre + Begin(nonce) + ("\n" + blob + "\n" + End(nonce) + ("\n" + post))
  {
  }

  lemma FindFirst(pre: string, b: string, e: string, tail: string)
    requires Markers(b, e) && Find(b, pre).None? && !Straddles(pre, b)
    ensures Find(b, pre + b + tail) == Some(|pre|)
  {
    hide Straddles, Markers, Find;
    OccursHere(b, pre, tail);
    var i := Find(b, pre + b + tail).value;
    if i < |pre| { Overlap(pre, b, e, tail, i); }
  }

  lemma FirstGroup(b: string, e: string, text: string, i: nat)
    requires b != "" && Find(b, text) == Some(i)
    ensures var rest, all := text[i + |b|..], FindAll(b, e, text);
            if Find(e, rest).None? then all == [] else all != [] && all[0] == Strip(rest[..Find(e, rest).value])
  {
    hide Find, Strip;
  }

  /** After output free of the begin marker that does not straddle it, the printed block is found
      first, whatever follows. */
  lemma BlockFound(pre: string, nonce: string, blob: string, post: string)
    requires Nonce(nonce) && Opaque(blob) && Find(Begin(nonce), pre).None? && !Straddles(pre, Begin(nonce))
    ensures FindAll(Begin(nonce), End(nonce), pre + Printed(nonce, blob) + post)
            == [blob] + FindAll(Begin(nonce), End(nonce), "\n" + post)
  {
    hide Straddles, Opaque, Markers, Printed, Begin, End, Nonce, Find, Strip;
    TheMarkers(nonce);
    PrintedParts(pre, nonce, blob, post);
    var b, e := Begin(nonce), End(nonce);
    assert b != "" by { Unhidden(b, e); }
    var tail := "\n" + blob + "\n" + e + ("\n" + post);
    FindFirst(pre, b, e, tail);
    OccursHere(b, pre, tail);
    assert FindAll(b, e, pre + b + tail) == Opened(b, e, tail);
    TailGroup(b, e, blob, "\n" + post);
  }

  lemma Unhidden(b: string, e: string)
    requires Markers(b, e)
    ensures b != ""
  {
  }

  /** The block read between noise is the block printed, exactly when the output before it does not
      straddle the marker; freedom from the marker alone is not enough. */
  lemma BlockOfPrinted(pre: string, nonce: string, blob: string, post: string)
    requires Nonce(nonce) && Opaque(blob) && Find(Begin(nonce), pre).None? && Find(Begin(nonce), post).None?
    ensures Block(pre + Printed(nonce, blob) + post, nonce) == Some(blob) <==> !Straddles(pre, Begin(nonce))
  {
    hide Straddles, Opaque, Printed, Begin, End, Nonce, Find, Markers;
    if Straddles(pre, Begin(nonce)) {
      Swallowed(pre, nonce, blob, post);
    } else {
      BlockFound(pre, nonce, blob, post);
      TheMarkers(nonce);
      NoBlock(Begin(nonce), End(nonce), post);
    }
  }

  lemma NoUnderscore(blob: string)
    requires Opaque(blob)
    ensures '_' !in blob
  {
  }

  /** A straddled marker is found early, and the real marker's text lands in the block. */
  lemma Swallowed(pre: string, nonce: string, blob: string, post: string)
    requires Nonce(nonce) && Opaque(blob) && Find(Begin(nonce), pre).None? && Straddles(pre, Begin(nonce))
    ensures Block(pre + Printed(nonce, blob) + post, nonce) != Some(blob)
  {
    hide Straddles, Printed, Begin, End, Nonce, Markers, Strip, Find, FindAll, Opaque;
    TheMarkers(nonce);
    PrintedParts(pre, nonce, blob, post);
    var b, e := Begin(nonce), End(nonce);
    var tail := "\n" + blob + "\n" + e + ("\n" + post);
    var text := pre + b + tail;
    Unhidden(b, e);
    Straddling(pre, b, e, tail);
    var i := Find(b, text).value;
    Overlap(pre, b, e, tail, i);
    FirstGroup(b, e, text, i);
    var rest := text[i + |b|..];
    if Find(e, rest).Some? {
      UnderscoreInside(pre, b, e, tail, i, Find(e, rest).value);
      NoUnderscore(blob);
    }
  }

  /** Such output: the begin marker without its last underscore. It holds no marker, and no block printed
      right after it is read back. */
  lemma MarkerCutShort(nonce: string, blob: string, post: string)
    requires Nonce(nonce) && Opaque(blob)
    ensures var pre := Begin(nonce)[..|Begin(nonce)| - 1];
            Find(Begin(nonce), pre).None? && Block(pre + Printed(nonce, blob) + post, nonce) != Some(blob)
  {
    hide Printed, Begin, End, Nonce, Markers, Find, FindAll, Opaque;
    TheMarkers(nonce);
    Unhidden(Begin(nonce), End(nonce));
    var b := Begin(nonce);
    var pre := b[..|b| - 1];
    assert EndsWith(pre, pre);
    LongMarker(b, End(nonce));
    Swallowed(pre, nonce, blob, post);
  }

  lemma LongMarker(b: string, e: string)
    requires Markers(b, e)
    ensures |b| >= 2
  {
  }

  lemma NotInHead(b: string, e: string, rest: string, m: nat, j: nat)
    requires Markers(b, e) && 1 <= m <= 2 && |rest| >= |b| - m && forall t | 0 <= t < |b| - m :: rest[t] == b[t + m]
    ensures Occurs(e, rest, j) ==> j > 8 - m
  {
    if j <= 8 - m {
      assert rest[j] == b[j + m] && rest[j + 1] == b[j + m + 1];
      Clash(e, rest, j, if b[j + m] != '_' then 0 else 1);
    }
  }

  /** The end marker does not begin inside the first words of a begin marker cut short. */
  lemma UnderscoreInside(pre: string, b: string, e: string, tail: string, i: nat, j: nat)
    requires Markers(b, e) && (i + |b| == |pre| + 1 || i + |b| == |pre| + 2)
    requires Occurs(e, (pre + b + tail)[i + |b|..], j)
    ensures '_' in Strip((pre + b + tail)[i + |b|..][..j])
  {
    hide Strip;
    var m := i + |b| - |pre|;
    var rest := (pre + b + tail)[i + |b|..];
    assert forall t | 0 <= t < |b| - m :: rest[t] == b[t + m];
    NotInHead(b, e, rest, m, j);
    assert rest[..j][8 - m] == b[8] == '_';
    KeepsUnderscore(rest[..j], 8 - m);
  }

  lemma KeepsUnderscore(s: string, k: nat)
    requires k < |s| && s[k] == '_'
    ensures '_' in Strip(s)
  {
    var lo, hi := StripSpan(s);
    assert Strip(s)[k - lo] == s[k];
  }

  // ---------------------------------------------------------------- the exactly-one rule

  /** Two printed blocks, and a begin marker never closed, give no payload. */
  lemma NotExactlyOne(pre: string, nonce: string, one: string, between: string, two: string, post: string)
    requires Nonce(nonce) && Opaque(one) && Opaque(two)
    requires Find(Begin(nonce), pre).None? && !Straddles(pre, Begin(nonce))
    requires Find(Begin(nonce), between).None? && !Straddles("\n" + between, Begin(nonce))
    ensures Block(pre + Printed(nonce, one) + (between + Printed(nonce, two) + post), nonce).None?
    ensures Find(End(nonce), post).None? ==> Block(pre + Begin(nonce) + post, nonce).None?
  {
    hide Straddles, Opaque, Printed, FindAll, Begin, End, Nonce, Find, Markers;
    BlockFound(pre, nonce, one, between + Printed(nonce, two) + post);
    TheMarkers(nonce);
    NoBlock(Begin(nonce), End(nonce), between);
    assert "\n" + (between + Printed(nonce, two) + post) == ("\n" + between) + Printed(nonce, two) + post;
    BlockFound("\n" + between, nonce, two, post);
    Unclosed(pre, nonce, post);
  }

  lemma Unclosed(pre: string, nonce: string, post: string)
    requires Nonce(nonce) && Find(Begin(nonce), pre).None? && !Straddles(pre, Begin(nonce))
    ensures Find(End(nonce), post).None? ==> Block(pre + Begin(nonce) + post, nonce).None?
  {
    hide Straddles, Nonce, Find, Begin, End, Markers;
    TheMarkers(nonce);
    var b, e := Begin(nonce), End(nonce);
    Unhidden(b, e);
    FindFirst(pre, b, e, post);
    OccursHere(b, pre, post);
    assert FindAll(b, e, pre + b + post) == Opened(b, e, post);
  }
}
