/** Options, byte strings and the few `str` operations of Python that the launcher's parsers use. */
module Text {

  datatype Option<+T> = None | Some(value: T)

  type Byte = b: int | 0 <= b < 256
  type Bytes = seq<Byte>

  /** `str.isspace`, which is also what `\s` means in a `str` pattern. */
  predicate IsSpace(c: char) {
    var n := c as int;
    || 0x09 <= n <= 0x0D || 0x1C <= n <= 0x20 || n == 0x85 || n == 0xA0 || n == 0x1680
    || 0x2000 <= n <= 0x200A || n == 0x2028 || n == 0x2029 || n == 0x202F || n == 0x205F || n == 0x3000
  }

  predicate StartsWith(s: string, p: string) {
    p <= s
  }

  predicate EndsWith(s: string, tail: string) {
    |tail| <= |s| && s[|s| - |tail|..] == tail
  }

  lemma Differs(line: string, literal: string, k: nat)
    requires k < |literal| && k < |line| && line[k] != literal[k]
    ensures !StartsWith(line, literal)
  {
  }

  function LStrip(s: string): (r: string)
    ensures |r| <= |s| && r == s[|s| - |r|..]
    ensures r == "" || !IsSpace(r[0])
    ensures forall i | 0 <= i < |s| - |r| :: IsSpace(s[i])
  {
    if s == "" || !IsSpace(s[0]) then s else LStrip(s[1..])
  }

  function RStrip(s: string): (r: string)
    ensures |r| <= |s| && r == s[..|r|]
    ensures r == "" || !IsSpace(r[|r| - 1])
    ensures forall i | |r| <= i < |s| :: IsSpace(s[i])
  {
    if s == "" || !IsSpace(s[|s| - 1]) then s else RStrip(s[..|s| - 1])
  }

  function Strip(s: string): (r: string) {
    RStrip(LStrip(s))
  }

  /** A string whose two ends are not blank is left alone. */
  lemma StripTight(s: string)
    requires s != "" ==> !IsSpace(s[0]) && !IsSpace(s[|s| - 1])
    ensures Strip(s) == s
  {
  }

  /** The part of `s` that stripping keeps. */
  lemma StripSpan(s: string) returns (lo: nat, hi: nat)
    ensures lo <= hi <= |s| && Strip(s) == s[lo..hi]
    ensures forall i | 0 <= i < lo || hi <= i < |s| :: IsSpace(s[i])
    ensures lo < hi ==> !IsSpace(s[lo]) && !IsSpace(s[hi - 1])
  {
    hide IsSpace, LStrip, RStrip;
    var left := LStrip(s);
    var inner := RStrip(left);
    lo := |s| - |left|;
    hi := lo + |inner|;
    forall i | hi <= i < |s| ensures IsSpace(s[i]) { assert left[i - lo] == s[i]; }
    if lo < hi {
      assert inner[0] == left[0];
    }
  }

  /** `s.split(sep)` for a one-element separator: always at least one field. */
  function Split<T(==)>(s: seq<T>, sep: T): (r: seq<seq<T>>)
    ensures |r| >= 1
    ensures forall f | f in r :: sep !in f
  {
    if s == [] then [[]]
    else
      var rest := Split(s[1..], sep);
      if s[0] == sep then [[]] + rest else [[s[0]] + rest[0]] + rest[1..]
  }

  /** Each line followed by the separator, as a program that prints lines writes them. */
  function Unlines<T>(lines: seq<seq<T>>, sep: T): seq<T> {
    if lines == [] then [] else lines[0] + [sep] + Unlines(lines[1..], sep)
  }

  lemma {:induction false} SplitHead<T>(head: seq<T>, rest: seq<T>, sep: T)
    requires sep !in head
    ensures Split(head + [sep] + rest, sep) == [head] + Split(rest, sep)
  {
    var s := head + [sep] + rest;
    if head == [] {
      assert s[0] == sep && s[1..] == rest;
    } else {
      assert s[0] == head[0] && s[1..] == head[1..] + [sep] + rest;
      SplitHead(head[1..], rest, sep);
      assert [head[0]] + head[1..] == head;
    }
  }

  lemma {:induction false} SplitWhole<T>(s: seq<T>, sep: T)
    requires sep !in s
    ensures Split(s, sep) == [s]
  {
    if s != [] {
      SplitWhole(s[1..], sep);
      assert [s[0]] + s[1..] == s;
    }
  }

  /** Splitting what was printed gives the printed lines and the empty field after the last separator. */
  lemma {:induction false} SplitUnlines<T>(lines: seq<seq<T>>, sep: T)
    requires forall l | l in lines :: sep !in l
    ensures Split(Unlines(lines, sep), sep) == lines + [[]]
  {
    if lines != [] {
      SplitHead(lines[0], Unlines(lines[1..], sep), sep);
      SplitUnlines(lines[1..], sep);
      assert lines == [lines[0]] + lines[1..];
    }
  }

  /** `list(dict.fromkeys(xs))`: first occurrences, in order. */
  function Dedup<T(==,!new)>(xs: seq<T>): (r: seq<T>)
    ensures forall x :: x in r <==> x in xs
    ensures forall i, j | 0 <= i < j < |r| :: r[i] != r[j]
  {
    if xs == [] then [] else
      var init := Dedup(xs[..|xs| - 1]);
      var last := xs[|xs| - 1];
      assert forall x :: x in xs <==> x in xs[..|xs| - 1] || x == last;
      if last in init then init else init + [last]
  }
}
