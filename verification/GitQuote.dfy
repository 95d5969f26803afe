/** Git's C-style path quoting and the launcher's inverse of it (launcher/patchgate.py:67-104). */
module GitQuote {
  import opened Text
  import Utf8

  predicate IsOctal(c: char) { '0' <= c <= '7' }

  function OctalDigit(n: int): char
    requires 0 <= n < 8
  {
    ('0' as int + n) as char
  }

  /** The letter git writes after a backslash for a control character, and for `"` and `\`. */
  function NamedEscape(b: Byte): Option<char> {
    if b == 7 then Some('a') else if b == 8 then Some('b') else if b == 9 then Some('t')
    else if b == 10 then Some('n') else if b == 11 then Some('v') else if b == 12 then Some('f')
    else if b == 13 then Some('r') else if b == 34 then Some('"') else if b == 92 then Some('\\')
    else None
  }

  predicate Plain(b: Byte) {
    0x20 <= b < 0x7F && b != 34 && b != 92
  }

  function QuoteByte(b: Byte): string {
    if Plain(b) then [b as char]
    else if NamedEscape(b).Some? then ['\\', NamedEscape(b).value]
    else ['\\', OctalDigit(b / 64), OctalDigit(b / 8 % 8), OctalDigit(b % 8)]
  }

  function QuoteBody(path: Bytes): string {
    if path == [] then "" else QuoteByte(path[0]) + QuoteBody(path[1..])
  }

  predicate Bare(path: Bytes) {
    forall b | b in path :: Plain(b)
  }

  /** How git prints a path in a header line: bare when every byte is plain, else quoted. */
  function Printed(path: Bytes): string {
    if Bare(path) then QuoteBody(path) else "\"" + QuoteBody(path) + "\""
  }

  function OctalRun(s: string, limit: nat): (j: nat)
    ensures j <= limit && j <= |s|
    ensures forall i | 0 <= i < j :: IsOctal(s[i])
    ensures j < limit && j < |s| ==> !IsOctal(s[j])
  {
    if limit == 0 || s == "" || !IsOctal(s[0]) then 0 else 1 + OctalRun(s[1..], limit - 1)
  }

  function OctalValue(s: string): (v: nat)
    requires forall i | 0 <= i < |s| :: IsOctal(s[i])
  {
    if s == "" then 0
    else
      var last := s[|s| - 1];
      assert IsOctal(last);
      OctalValue(s[..|s| - 1]) * 8 + (last as int - '0' as int)
  }

  /** The bytes the character after a backslash stands for when it is no octal digit. */
  function Unescape(c: char): Bytes {
    match c
    case 'n' => [10] case 't' => [9] case '"' => [34] case '\\' => [92] case 'a' => [7]
    case 'b' => [8] case 'v' => [11] case 'f' => [12] case 'r' => [13]
    case _ => Utf8.EncodeChar(c)
  }

  /** What one round of the decoding loop appends and how much text it uses. `Overflow` is the
      ValueError that `bytearray.append` raises for an octal value above 255. */
  datatype Piece = Piece(front: Bytes, used: nat) | Overflow

  function NextPiece(body: string): (p: Piece)
    requires body != ""
    ensures p.Piece? ==> 1 <= p.used <= |body|
  {
    if body[0] != '\\' then Piece(Utf8.EncodeChar(body[0]), 1)
    else if |body| == 1 then Piece([], 1)
    else if IsOctal(body[1]) then
      var j := OctalRun(body[1..], 3);
      var v := OctalValue(body[1..][..j]);
      if v > 255 then Overflow else Piece([v], 1 + j)
    else Piece(Unescape(body[1]), 2)
  }

  /** The bytes the quoted text `body` stands for; None when the decoder raises. */
  function UnquoteBody(body: string): Option<Bytes> {
    if body == "" then Some([])
    else
      match NextPiece(body)
      case Overflow => None
      case Piece(front, used) => Prepend(front, UnquoteBody(body[used..]))
  }

  function Prepend(front: Bytes, rest: Option<Bytes>): Option<Bytes> {
    match rest
    case None => None
    case Some(tail) => Some(front + tail)
  }

  predicate Quoted(text: string) {
    |text| >= 2 && text[0] == '"' && text[|text| - 1] == '"'
  }

  /** `_git_unquote`, its `str` result given as the bytes it stands for. */
  function Unquote(text: string): Option<Bytes> {
    var path := Strip(text);
    if Quoted(path) then UnquoteBody(path[1..|path| - 1]) else Some(Utf8.Encode(path))
  }

  lemma PrependAssoc(a: Bytes, b: Bytes, rest: Option<Bytes>)
    ensures Prepend(a, Prepend(b, rest)) == Prepend(a + b, rest)
  {
    if rest.Some? {
      assert a + (b + rest.value) == a + b + rest.value;
    }
  }

  lemma PrependNothing(a: Bytes, rest: Option<Bytes>)
    ensures Prepend([], rest) == rest
    ensures Prepend(a, Some([])) == Some(a)
  {
    if rest.Some? {
      assert [] + rest.value == rest.value;
    }
    assert a + [] == a;
  }

  /** The decoding loop has read `i` characters of `body` and holds `out`. */
  ghost predicate DecodedTo(body: string, i: nat, out: Bytes) {
    i <= |body| && UnquoteBody(body) == Prepend(out, UnquoteBody(body[i..]))
  }

  lemma DecodeStart(body: string)
    ensures DecodedTo(body, 0, [])
  {
    assert body[0..] == body;
    PrependNothing([], UnquoteBody(body));
  }

  lemma DecodeRound(body: string, i: nat, out: Bytes)
    requires i < |body| && DecodedTo(body, i, out)
    ensures var p := NextPiece(body[i..]);
            if p.Overflow? then UnquoteBody(body) == None else DecodedTo(body, i + p.used, out + p.front)
  {
    var p := NextPiece(body[i..]);
    if p.Piece? {
      assert body[i..][p.used..] == body[i + p.used..];
      PrependAssoc(out, p.front, UnquoteBody(body[i + p.used..]));
    }
  }

  lemma DecodeEnd(body: string, out: Bytes)
    requires DecodedTo(body, |body|, out)
    ensures UnquoteBody(body) == Some(out)
  {
    PrependNothing(out, Some([]));
  }

  method CountOctal(digits: string) returns (j: nat)
    ensures j == OctalRun(digits, 3)
  {
    j := 0;
    while j < 3 && j < |digits| && IsOctal(digits[j])
      invariant 0 <= j <= 3 && j <= |digits|
      invariant OctalRun(digits, 3) == j + OctalRun(digits[j..], 3 - j)
    {
      assert digits[j..][1..] == digits[j + 1..];
      j := j + 1;
    }
  }

  method GitUnquote(text: string) returns (r: Option<Bytes>)
    ensures r == Unquote(text)
  {
    var path := Strip(text);
    if |path| < 2 || !(path[0] == '"' && path[|path| - 1] == '"') {
      return Some(Utf8.Encode(path));
    }
    r := DecodeBody(path[1..|path| - 1]);
  }

  method DecodeBody(body: string) returns (r: Option<Bytes>)
    ensures r == UnquoteBody(body)
  {
    hide UnquoteBody, NextPiece, DecodedTo;
    var out: Bytes := [];
    var i := 0;
    DecodeStart(body);
    while i < |body|
      invariant i <= |body| && DecodedTo(body, i, out)
    {
      DecodeRound(body, i, out);
      var piece := DecodePiece(body, i);
      if piece.Overflow? {
        return None;
      }
      out := out + piece.front;
      i := i + piece.used;
    }
    DecodeEnd(body, out);
    r := Some(out);
  }

  method DecodePiece(body: string, i: nat) returns (p: Piece)
    requires i < |body|
    ensures p == NextPiece(body[i..])
  {
    ghost var rest := body[i..];
    var c := body[i];
    assert rest[0] == c;
    if c != '\\' {
      return Piece(Utf8.EncodeChar(c), 1);
    }
    if i + 1 >= |body| {
      return Piece([], 1);
    }
    var n := body[i + 1];
    assert rest[1] == n;
    if !IsOctal(n) {
      return Piece(Unescape(n), 2);
    }
    var digits := body[i + 1..];
    assert rest[1..] == digits;
    var j := CountOctal(digits);
    var v := OctalValue(digits[..j]);
    if v > 255 {
      return Overflow;
    }
    p := Piece([v], 1 + j);
  }

  lemma OctalOfThree(b: Byte, rest: string)
    ensures var s := [OctalDigit(b / 64), OctalDigit(b / 8 % 8), OctalDigit(b % 8)];
            OctalRun(s + rest, 3) == 3 && OctalValue((s + rest)[..3]) == b
  {
    var x, y, z := OctalDigit(b / 64), OctalDigit(b / 8 % 8), OctalDigit(b % 8);
    var s := [x, y, z];
    assert (s + rest)[..3] == s;
    assert (s + rest)[1..] == [y, z] + rest && ([y, z] + rest)[1..] == [z] + rest;
    assert ([z] + rest)[1..] == rest;
    assert OctalRun(rest, 0) == 0;
    assert s[..2] == [x, y] && [x, y][..1] == [x] && [x][..0] == "";
    assert OctalValue([x]) == b / 64;
    assert OctalValue([x, y]) == b / 8;
  }

  /** One quoted byte is read back as itself and the decoder resumes right after it, whatever
      follows: no following digit is absorbed and no octal value passes 255. */
  lemma QuotedPiece(b: Byte, rest: string)
    ensures NextPiece(QuoteByte(b) + rest) == Piece([b], |QuoteByte(b)|)
  {
    var q := QuoteByte(b);
    var s := q + rest;
    assert forall i | 0 <= i < |q| :: s[i] == q[i];
    if !Plain(b) && NamedEscape(b).None? {
      OctalOfThree(b, rest);
      assert s[1..] == q[1..] + rest;
    }
  }

  lemma {:induction false} QuotedBodyDecodes(path: Bytes)
    ensures UnquoteBody(QuoteBody(path)) == Some(path)
  {
    if path != [] {
      var q, rest := QuoteByte(path[0]), QuoteBody(path[1..]);
      QuotedPiece(path[0], rest);
      assert (q + rest)[|q|..] == rest;
      QuotedBodyDecodes(path[1..]);
      assert [path[0]] + path[1..] == path;
    }
  }

  /** The quoting round trip, for every byte string and any blanks around the quoted form. */
  lemma UnquoteOfQuoted(path: Bytes)
    ensures Unquote("\"" + QuoteBody(path) + "\"") == Some(path)
  {
    var text := "\"" + QuoteBody(path) + "\"";
    StripTight(text);
    assert text[1..|text| - 1] == QuoteBody(path);
    QuotedBodyDecodes(path);
  }

  lemma {:induction false} PlainBody(path: Bytes)
    requires Bare(path)
    ensures |QuoteBody(path)| == |path|
    ensures forall i | 0 <= i < |path| :: QuoteBody(path)[i] == path[i] as char
  {
    if path != [] {
      PlainBody(path[1..]);
    }
  }

  lemma AsciiEndpoint(path: Bytes, text: string)
    requires |text| == |path|
    requires forall i | 0 <= i < |path| :: Plain(path[i]) && text[i] as int == path[i]
    ensures !Quoted(text) && Utf8.Encode(text) == path
  {
    if text != "" {
      assert Plain(path[0]);
    }
    Utf8.EncodeAscii(text);
  }

  /** What stripping keeps of a path printed bare. */
  lemma BareSpan(path: Bytes) returns (lo: nat, hi: nat)
    requires Bare(path)
    ensures lo <= hi <= |path| == |QuoteBody(path)| && Strip(QuoteBody(path)) == QuoteBody(path)[lo..hi]
    ensures forall i | 0 <= i < |path| :: QuoteBody(path)[i] as int == path[i] && Plain(path[i])
    ensures forall i | 0 <= i < lo || hi <= i < |path| :: path[i] == 0x20
    ensures lo < hi ==> path[lo] != 0x20 && path[hi - 1] != 0x20
  {
    var text := QuoteBody(path);
    PlainBody(path);
    lo, hi := StripSpan(text);
    forall i | 0 <= i < |path|
      ensures text[i] as int == path[i] && Plain(path[i]) && (IsSpace(text[i]) <==> path[i] == 0x20)
    {
      PlainBlank(path[i]);
    }
  }

  /** A path git prints bare loses the spaces at its two ends; nothing else changes. */
  lemma BareEndpoint(path: Bytes) returns (lo: nat, hi: nat)
    requires Bare(path)
    ensures lo <= hi <= |path|
    ensures Unquote(QuoteBody(path)) == Some(path[lo..hi])
    ensures forall i | 0 <= i < lo || hi <= i < |path| :: path[i] == 0x20
    ensures lo < hi ==> path[lo] != 0x20 && path[hi - 1] != 0x20
  {
    hide Unquote, QuoteBody, Strip, Plain;
    lo, hi := BareSpan(path);
    UnquoteBare(QuoteBody(path), path[lo..hi], QuoteBody(path)[lo..hi]);
  }

  lemma PlainBlank(b: Byte)
    requires Plain(b)
    ensures IsSpace(b as char) <==> b == 0x20
  {
  }

  lemma UnquoteBare(text: string, path: Bytes, inner: string)
    requires Strip(text) == inner && |inner| == |path|
    requires forall i | 0 <= i < |path| :: Plain(path[i]) && inner[i] as int == path[i]
    ensures Unquote(text) == Some(path)
  {
    AsciiEndpoint(path, inner);
  }

  /** The one error: three octal digits above 377 after a backslash raise, wherever the text before them
      decodes. */
  lemma {:induction false} OverflowRaises(front: Bytes, a: char, b: char, c: char, rest: string)
    requires '4' <= a <= '7' && IsOctal(b) && IsOctal(c)
    ensures UnquoteBody(QuoteBody(front) + (['\\', a, b, c] + rest)) == None
    decreases |front|
  {
    var tail := ['\\', a, b, c] + rest;
    if front == [] {
      assert QuoteBody(front) + tail == tail;
      Above(a, b, c, rest);
    } else {
      var more := QuoteBody(front[1..]) + tail;
      assert QuoteBody(front) + tail == QuoteByte(front[0]) + more;
      QuotedPiece(front[0], more);
      OverflowRaises(front[1..], a, b, c, rest);
    }
  }

  lemma Above(a: char, b: char, c: char, rest: string)
    requires '4' <= a <= '7' && IsOctal(b) && IsOctal(c)
    ensures NextPiece(['\\', a, b, c] + rest) == Overflow
  {
    var s, body := [a, b, c], ['\\', a, b, c] + rest;
    assert body[1..] == s + rest && body[1] == a;
    assert (s + rest)[..3] == s;
    assert (s + rest)[1..] == [b, c] + rest && ([b, c] + rest)[1..] == [c] + rest && ([c] + rest)[1..] == rest;
    assert OctalRun(rest, 0) == 0;
    assert s[..2] == [a, b] && [a, b][..1] == [a] && [a][..0] == "";
    assert OctalValue([a]) >= 4 && OctalValue([a, b]) >= 32;
  }
}
