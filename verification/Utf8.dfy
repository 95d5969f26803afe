/** UTF-8 as sections 3 and 4 of RFC 3629 define it, in the two error modes the launcher uses. */
module Utf8 {
  import opened Text

  function EncodeChar(c: char): (r: Bytes)
    ensures 1 <= |r| <= 4
  {
    var n := c as int;
    if n < 0x80 then [n]
    else if n < 0x800 then [0xC0 + n / 64, 0x80 + n % 64]
    else if n < 0x10000 then [0xE0 + n / 4096, 0x80 + n / 64 % 64, 0x80 + n % 64]
    else [0xF0 + n / 262144, 0x80 + n / 4096 % 64, 0x80 + n / 64 % 64, 0x80 + n % 64]
  }

  function Encode(s: string): Bytes {
    if s == "" then [] else EncodeChar(s[0]) + Encode(s[1..])
  }

  predicate Cont(b: Byte) { 0x80 <= b <= 0xBF }

  /** The length a leading byte announces; 0 when no character starts with it. */
  function LeadLength(b: Byte): (n: nat)
    ensures n <= 4
  {
    if b < 0x80 then 1
    else if 0xC2 <= b <= 0xDF then 2
    else if 0xE0 <= b <= 0xEF then 3
    else if 0xF0 <= b <= 0xF4 then 4
    else 0
  }

  /** The second byte also excludes overlong forms, surrogates and values past U+10FFFF. */
  predicate Second(lead: Byte, b: Byte) {
    && Cont(b)
    && (lead == 0xE0 ==> 0xA0 <= b)
    && (lead == 0xED ==> b <= 0x9F)
    && (lead == 0xF0 ==> 0x90 <= b)
    && (lead == 0xF4 ==> b <= 0x8F)
  }

  /** How many bytes at the front of `b` are a beginning of some encoded character. */
  function GoodRun(b: Bytes): (k: nat)
    requires b != []
    ensures k <= |b| && k <= LeadLength(b[0])
  {
    var n := LeadLength(b[0]);
    if n <= 1 then n
    else if |b| < 2 || !Second(b[0], b[1]) then 1
    else if n == 2 then 2
    else if |b| < 3 || !Cont(b[2]) then 2
    else if n == 3 then 3
    else if |b| < 4 || !Cont(b[3]) then 3
    else 4
  }

  predicate WholeChar(b: Bytes) {
    b != [] && LeadLength(b[0]) != 0 && GoodRun(b) == LeadLength(b[0])
  }

  /** Six payload bits after those already read. */
  function Shift(high: int, b: Byte): int {
    high * 64 + (b as int - 0x80)
  }

  function FirstChar(b: Bytes): (c: char)
    requires WholeChar(b)
  {
    var b0 := b[0] as int;
    match LeadLength(b[0])
    case 1 => b0 as char
    case 2 => Shift(b0 - 0xC0, b[1]) as char
    case 3 => Shift(Shift(b0 - 0xE0, b[1]), b[2]) as char
    case _ => Shift(Shift(Shift(b0 - 0xF0, b[1]), b[2]), b[3]) as char
  }

  /** `bytes.decode("utf-8")`; None is UnicodeDecodeError. */
  function Decode(b: Bytes): Option<string> {
    if b == [] then Some("")
    else if !WholeChar(b) then None
    else
      match Decode(b[LeadLength(b[0])..])
      case None => None
      case Some(rest) => Some([FirstChar(b)] + rest)
  }

  /** `bytes.decode("utf-8", errors="ignore")`: an ill-formed run is dropped. */
  function DecodeIgnoring(b: Bytes): string {
    if b == [] then ""
    else if WholeChar(b) then [FirstChar(b)] + DecodeIgnoring(b[LeadLength(b[0])..])
    else DecodeIgnoring(b[if GoodRun(b) == 0 then 1 else GoodRun(b)..])
  }

  lemma EncodedCharIsWhole(c: char, rest: Bytes)
    ensures WholeChar(EncodeChar(c) + rest)
    ensures LeadLength((EncodeChar(c) + rest)[0]) == |EncodeChar(c)|
    ensures FirstChar(EncodeChar(c) + rest) == c
  {
    var n := c as int;
    var e := EncodeChar(c);
    var b := e + rest;
    assert |b| >= |e|;
    assert forall i | 0 <= i < |e| :: b[i] == e[i];
    var n1, n2, n3 := n / 64, n / 4096, n / 262144;
    assert n == n1 * 64 + n % 64;
    assert n2 == n1 / 64 && n1 == n2 * 64 + n1 % 64;
    assert n3 == n2 / 64 && n2 == n3 * 64 + n2 % 64;
  }

  lemma WholeCharIsEncoded(b: Bytes)
    requires WholeChar(b)
    ensures EncodeChar(FirstChar(b)) == b[..LeadLength(b[0])]
  {
    var b0, n := b[0] as int, LeadLength(b[0]);
    if n >= 2 {
      var h1 := Shift(b0 - (if n == 2 then 0xC0 else if n == 3 then 0xE0 else 0xF0), b[1]);
      ShiftBack(b0 - (if n == 2 then 0xC0 else if n == 3 then 0xE0 else 0xF0), b[1]);
      if n >= 3 {
        ShiftBack(h1, b[2]);
        if n == 4 {
          ShiftBack(Shift(h1, b[2]), b[3]);
        }
      }
    }
  }

  lemma ShiftBack(high: int, b: Byte)
    requires Cont(b)
    ensures Shift(high, b) / 64 == high && Shift(high, b) % 64 == b - 0x80
    ensures Shift(high, b) / 4096 == high / 64
    ensures Shift(high, b) / 262144 == high / 4096
  {
  }

  /** Strict decoding undoes encoding. */
  lemma {:induction false} DecodeOfEncode(s: string)
    ensures Decode(Encode(s)) == Some(s)
  {
    if s != "" {
      var rest := Encode(s[1..]);
      EncodedCharIsWhole(s[0], rest);
      assert (EncodeChar(s[0]) + rest)[|EncodeChar(s[0])|..] == rest;
      DecodeOfEncode(s[1..]);
      assert [s[0]] + s[1..] == s;
    }
  }

  /** Whatever strict decoding accepts, re-encoding gives the same bytes back: one patch byte string. */
  lemma {:induction false} EncodeOfDecode(b: Bytes)
    requires Decode(b).Some?
    ensures Encode(Decode(b).value) == b
  {
    hide EncodeChar, FirstChar, Encode, GoodRun;
    EncodeNothing();
    if b != [] {
      var n := LeadLength(b[0]);
      var c, tail := FirstChar(b), Decode(b[n..]).value;
      EncodeOfDecode(b[n..]);
      EncodeCons(c, tail);
      assert EncodeChar(c) == b[..n] by {
        WholeCharIsEncoded(b);
      }
      assert b == b[..n] + b[n..];
    }
  }

  lemma EncodeNothing()
    ensures Encode("") == []
  {
  }

  lemma EncodeCons(c: char, tail: string)
    ensures Encode([c] + tail) == EncodeChar(c) + Encode(tail)
  {
    assert ([c] + tail)[1..] == tail;
  }

  /** ASCII text is its own encoding. */
  lemma {:induction false} EncodeAscii(s: string)
    requires forall i | 0 <= i < |s| :: s[i] as int < 0x80
    ensures |Encode(s)| == |s|
    ensures forall i | 0 <= i < |s| :: Encode(s)[i] == s[i] as int
  {
    if s != "" {
      EncodeAscii(s[1..]);
    }
  }

  /** A proper beginning of one encoded character decodes to nothing when errors are ignored. */
  lemma BrokenCharIgnored(c: char, k: nat)
    requires k < |EncodeChar(c)|
    ensures DecodeIgnoring(EncodeChar(c)[..k]) == ""
  {
    var e := EncodeChar(c);
    EncodedCharIsWhole(c, []);
    assert e + [] == e;
    if k > 0 {
      var b := e[..k];
      assert b[0] == e[0];
      assert GoodRun(b) == k;
      assert b[k..] == [];
    }
  }

  /** How many whole characters of `s` fit in `limit` bytes. */
  function Fitting(s: string, limit: nat): (k: nat)
    ensures k <= |s|
  {
    if s == "" || |EncodeChar(s[0])| > limit then 0
    else 1 + Fitting(s[1..], limit - |EncodeChar(s[0])|)
  }

  /** `Fitting` is the longest prefix whose encoding keeps within the limit. */
  lemma {:induction false} FittingIsLongest(s: string, limit: nat, k: nat)
    requires k <= |s|
    ensures |Encode(s[..k])| <= limit <==> k <= Fitting(s, limit)
  {
    if k > 0 {
      assert s[..k][0] == s[0] && s[..k][1..] == s[1..][..k - 1];
      if |EncodeChar(s[0])| <= limit {
        FittingIsLongest(s[1..], limit - |EncodeChar(s[0])|, k - 1);
      }
    }
  }

  /** Cutting the bytes at the limit and decoding with errors ignored keeps exactly the longest
      prefix of whole characters that fits: a cut never leaves half a character or drops a whole one. */
  lemma {:induction false} ByteCutKeepsWholeChars(s: string, limit: nat)
    requires limit <= |Encode(s)|
    ensures DecodeIgnoring(Encode(s)[..limit]) == s[..Fitting(s, limit)]
  {
    hide EncodeChar, WholeChar, FirstChar, GoodRun, LeadLength;
    if s != "" {
      var e, rest := EncodeChar(s[0]), Encode(s[1..]);
      if |e| > limit {
        assert Encode(s)[..limit] == e[..limit];
        BrokenCharIgnored(s[0], limit);
      } else {
        var cut := rest[..limit - |e|];
        assert Encode(s)[..limit] == e + cut;
        EncodedCharIsWhole(s[0], cut);
        assert (e + cut)[|e|..] == cut;
        ByteCutKeepsWholeChars(s[1..], limit - |e|);
      }
    }
  }
}
