/** Base64 as the evidence channel uses it: the standard encoding of section 4 of RFC 4648, read back by
    Python's lenient decoder, which skips foreign characters (launcher/payload.py:79, 116, 172). */
module Base64 {
  import opened Text

  type Sextet = v: int | 0 <= v < 64

  function Digit(v: Sextet): char {
    if v < 26 then 'A' + v as char
    else if v < 52 then 'a' + (v - 26) as char
    else if v < 62 then '0' + (v - 52) as char
    else if v == 62 then '+' else '/'
  }

  function Value(c: char): Option<Sextet> {
    if 'A' <= c <= 'Z' then Some(c as int - 'A' as int)
    else if 'a' <= c <= 'z' then Some(c as int - 'a' as int + 26)
    else if '0' <= c <= '9' then Some(c as int - '0' as int + 52)
    else if c == '+' then Some(62)
    else if c == '/' then Some(63) else None
  }

  function Encode(b: Bytes): string {
    if b == [] then ""
    else if |b| == 1 then [Digit(b[0] / 4), Digit(b[0] % 4 * 16), '=', '=']
    else if |b| == 2 then [Digit(b[0] / 4), Digit(b[0] % 4 * 16 + b[1] / 16), Digit(b[1] % 16 * 4), '=']
    else
      [Digit(b[0] / 4), Digit(b[0] % 4 * 16 + b[1] / 16), Digit(b[1] % 16 * 4 + b[2] / 64), Digit(b[2] % 64)]
      + Encode(b[3..])
  }

  /** The decoder's register: the position in the group of four, the bits left over, the pads seen. */
  datatype Reg = Reg(quad: nat, left: nat, pads: nat) {
    predicate Valid() {
      quad < 4 && left < (if quad == 0 then 1 else if quad == 1 then 64 else if quad == 2 then 16 else 4)
    }
  }

  function Shift(r: Reg, v: Sextet): (n: (Reg, Bytes))
    requires r.Valid()
    ensures n.0.Valid()
  {
    match r.quad
    case 0 => (Reg(1, v, 0), [])
    case 1 => (Reg(2, v % 16, 0), [r.left * 4 + v / 16])
    case 2 => (Reg(3, v % 4, 0), [r.left * 16 + v / 4])
    case _ => (Reg(0, 0, 0), [r.left * 64 + v])
  }

  /** None: the decoder raises on a group left incomplete. */
  function DecodeFrom(s: string, r: Reg): Option<Bytes>
    requires r.Valid()
  {
    if s == "" then if r.quad == 0 then Some([]) else None
    else if s[0] == '=' then
      if r.quad >= 2 && r.quad + r.pads + 1 >= 4 then Some([])
      else DecodeFrom(s[1..], if r.quad >= 2 then r.(pads := r.pads + 1) else r)
    else
      match Value(s[0])
      case None => DecodeFrom(s[1..], r)
      case Some(v) =>
        var (next, out) := Shift(r, v);
        var rest := DecodeFrom(s[1..], next);
        if rest.None? then None else Some(out + rest.value)
  }

  /** `base64.b64decode` of a string; text outside ASCII raises. */
  function Decode(s: string): Option<Bytes> {
    if exists c | c in s :: c as int >= 128 then None else DecodeFrom(s, Reg(0, 0, 0))
  }

  lemma ValueOfDigit(v: Sextet)
    ensures Value(Digit(v)) == Some(v) && Digit(v) != '='
  {
  }

  lemma DigitStep(v: Sextet, s: string, r: Reg)
    requires r.Valid()
    ensures var (next, out) := Shift(r, v);
            var rest := DecodeFrom(s, next);
            DecodeFrom([Digit(v)] + s, r) == if rest.None? then None else Some(out + rest.value)
  {
    ValueOfDigit(v);
    assert ([Digit(v)] + s)[1..] == s;
  }

  lemma PadStep(s: string, r: Reg)
    requires r.Valid() && r.quad >= 2
    ensures DecodeFrom(['='] + s, r) == if r.quad + r.pads + 1 >= 4 then Some([])
            else DecodeFrom(s, r.(pads := r.pads + 1))
  {
    assert (['='] + s)[1..] == s;
  }

  /** The second, third and fourth character of a group each complete one byte. */
  lemma Second(x: Byte, rest: nat)
    requires rest < 16
    ensures Shift(Reg(1, x / 4, 0), x % 4 * 16 + rest) == (Reg(2, rest, 0), [x])
  {
    assert (x % 4 * 16 + rest) % 16 == rest && (x % 4 * 16 + rest) / 16 == x % 4;
  }

  lemma Third(y: Byte, rest: nat)
    requires rest < 4
    ensures Shift(Reg(2, y / 16, 0), y % 16 * 4 + rest) == (Reg(3, rest, 0), [y])
  {
    assert (y % 16 * 4 + rest) % 4 == rest && (y % 16 * 4 + rest) / 4 == y % 16;
  }

  lemma Fourth(z: Byte)
    ensures Shift(Reg(3, z / 64, 0), z % 64) == (Reg(0, 0, 0), [z])
  {
  }

  /** A full group of four gives back its three bytes. */
  lemma GroupStep(x: Byte, y: Byte, z: Byte, s: string)
    requires DecodeFrom(s, Reg(0, 0, 0)).Some?
    ensures DecodeFrom([Digit(x / 4), Digit(x % 4 * 16 + y / 16), Digit(y % 16 * 4 + z / 64), Digit(z % 64)] + s,
                       Reg(0, 0, 0))
            == Some([x, y, z] + DecodeFrom(s, Reg(0, 0, 0)).value)
  {
    hide DecodeFrom, Digit, Value, Shift;
    var s3 := [Digit(z % 64)] + s;
    var s2 := [Digit(y % 16 * 4 + z / 64)] + s3;
    var s1 := [Digit(x % 4 * 16 + y / 16)] + s2;
    Fourth(z);
    DigitStep(z % 64, s, Reg(3, z / 64, 0));
    Third(y, z / 64);
    DigitStep(y % 16 * 4 + z / 64, s3, Reg(2, y / 16, 0));
    Second(x, y / 16);
    DigitStep(x % 4 * 16 + y / 16, s2, Reg(1, x / 4, 0));
    First(x / 4);
    DigitStep(x / 4, s1, Reg(0, 0, 0));
    assert [Digit(x / 4), Digit(x % 4 * 16 + y / 16), Digit(y % 16 * 4 + z / 64), Digit(z % 64)] + s
           == [Digit(x / 4)] + s1;
    var tail := DecodeFrom(s, Reg(0, 0, 0)).value;
    assert [x, y, z] + tail == [] + ([x] + ([y] + ([z] + tail)));
  }

  lemma First(v: Sextet)
    ensures Shift(Reg(0, 0, 0), v) == (Reg(1, v, 0), [])
  {
  }

  lemma {:induction false} DecodeOfEncode(b: Bytes)
    ensures Decode(Encode(b)) == Some(b)
  {
    hide DecodeFrom, Encode, Value;
    EncodeAlphabet(b);
    RoundTrip(b);
  }

  lemma {:induction false} RoundTrip(b: Bytes)
    ensures DecodeFrom(Encode(b), Reg(0, 0, 0)) == Some(b)
  {
    hide DecodeFrom, Digit, Shift;
    if |b| == 0 {
      Empty();
    } else if |b| == 1 {
      assert b == [b[0]];
      LastOne(b[0]);
    } else if |b| == 2 {
      assert b == [b[0], b[1]];
      LastTwo(b[0], b[1]);
    } else {
      RoundTrip(b[3..]);
      GroupStep(b[0], b[1], b[2], Encode(b[3..]));
      assert [b[0], b[1], b[2]] + b[3..] == b;
    }
  }

  lemma Empty()
    ensures DecodeFrom("", Reg(0, 0, 0)) == Some([])
  {
  }

  lemma LastOne(x: Byte)
    ensures DecodeFrom([Digit(x / 4), Digit(x % 4 * 16), '=', '='], Reg(0, 0, 0)) == Some([x])
  {
    hide DecodeFrom, Digit, Shift;
    PadStep("", Reg(2, 0, 1));
    PadStep("=", Reg(2, 0, 0));
    assert ['='] + "=" == "==" && ['='] + "" == "=";
    Second(x, 0);
    DigitStep(x % 4 * 16, "==", Reg(1, x / 4, 0));
    First(x / 4);
    DigitStep(x / 4, [Digit(x % 4 * 16)] + "==", Reg(0, 0, 0));
    assert [Digit(x / 4), Digit(x % 4 * 16), '=', '='] == [Digit(x / 4)] + ([Digit(x % 4 * 16)] + "==");
    assert [x] == [] + ([x] + []);
  }

  lemma LastTwo(x: Byte, y: Byte)
    ensures DecodeFrom([Digit(x / 4), Digit(x % 4 * 16 + y / 16), Digit(y % 16 * 4), '='], Reg(0, 0, 0)) == Some([x, y])
  {
    hide DecodeFrom, Digit, Shift;
    PadStep("", Reg(3, 0, 0));
    assert ['='] + "" == "=";
    var s2 := [Digit(y % 16 * 4)] + "=";
    var s1 := [Digit(x % 4 * 16 + y / 16)] + s2;
    Third(y, 0);
    DigitStep(y % 16 * 4, "=", Reg(2, y / 16, 0));
    Second(x, y / 16);
    DigitStep(x % 4 * 16 + y / 16, s2, Reg(1, x / 4, 0));
    First(x / 4);
    DigitStep(x / 4, s1, Reg(0, 0, 0));
    assert [Digit(x / 4), Digit(x % 4 * 16 + y / 16), Digit(y % 16 * 4), '='] == [Digit(x / 4)] + s1;
    assert [x, y] == [] + ([x] + ([y] + []));
  }

  predicate Plain(c: char) {
    Value(c).Some? || c == '='
  }

  /** No underscore and no blank, so the text can hold no marker and survives stripping. */
  predicate Clean(c: char) {
    Plain(c) && c as int < 128 && c != '_' && !IsSpace(c)
  }

  lemma {:induction false} EncodeAlphabet(b: Bytes)
    ensures forall c | c in Encode(b) :: Clean(c)
  {
    hide Digit, Plain, IsSpace;
    if |b| >= 3 {
      EncodeAlphabet(b[3..]);
      var four := [Digit(b[0] / 4), Digit(b[0] % 4 * 16 + b[1] / 16), Digit(b[1] % 16 * 4 + b[2] / 64),
                   Digit(b[2] % 64)];
      assert Encode(b) == four + Encode(b[3..]);
    }
    PadPlain();
    forall v: Sextet
      ensures Clean(Digit(v))
    {
      DigitPlain(v);
    }
  }

  lemma DigitPlain(v: Sextet)
    ensures Clean(Digit(v))
  {
  }

  lemma PadPlain()
    ensures Clean('=')
  {
  }
}
