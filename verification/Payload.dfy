/** The evidence payload: budgets, the member loop and the way from the Pod's files back to a map
    (launcher/payload.py:46-62, 108-203). Compression and the archive format are parameters. */
module Payload {
  import opened Text
  import Base64
  import Framing

  const CAP := 64 * 1024 * 1024
  const OVERHEAD := 1024 * 1024
  const CHUNK := 256 * 1024

  // ---------------------------------------------------------------- the bounded gunzip

  /** What a compressed block unpacks to: bytes, and then a clean end or an exception. */
  datatype Stream = Stream(data: Bytes, clean: bool)

  datatype Gunzipped = Whole(raw: Bytes) | OverBudget | Malformed

  function Budgeted(s: Stream, limit: nat): Gunzipped {
    if |s.data| > limit then OverBudget else if s.clean then Whole(s.data) else Malformed
  }

  /** A `GzipFile`: a read gives between one byte and what was asked for, nothing at the end. */
  class Reader {
    const stream: Stream
    var pos: nat

    constructor (s: Stream)
      ensures stream == s && pos == 0
    {
      stream := s;
      pos := 0;
    }

    method Read(n: nat) returns (chunk: Option<Bytes>)
      requires n > 0 && pos <= |stream.data|
      modifies this
      ensures old(pos) <= pos <= |stream.data| && pos <= old(pos) + n
      ensures chunk == if old(pos) == |stream.data| && !stream.clean then None else Some(stream.data[old(pos)..pos])
      ensures old(pos) < |stream.data| ==> old(pos) < pos
    {
      assert stream.data[pos..pos] == [];
      if pos == |stream.data| {
        return if stream.clean then Some([]) else None;
      }
      var next: nat :| pos < next <= |stream.data| && next <= pos + n;
      chunk := Some(stream.data[pos..next]);
      pos := next;
    }
  }

  /** Every chunking of the stream: all of it exactly when it fits the limit and ends cleanly, and at
      no moment more than the limit and one chunk unpacked. */
  method BoundedGunzip(gz: Reader, limit: nat) returns (g: Gunzipped)
    requires gz.pos == 0
    modifies gz
    ensures g == Budgeted(gz.stream, limit)
    ensures gz.pos <= limit + CHUNK
  {
    var out: Bytes := [];
    while true
      invariant gz.pos <= |gz.stream.data| && gz.pos <= limit && out == gz.stream.data[..gz.pos]
      decreases |gz.stream.data| - gz.pos
    {
      var chunk := gz.Read(CHUNK);
      if chunk.None? {
        return Malformed;
      }
      if chunk.value == [] {
        return Whole(out);
      }
      out := out + chunk.value;
      if |out| > limit {
        return OverBudget;
      }
    }
  }

  // ---------------------------------------------------------------- the member loop

  datatype Member = Member(name: string, isFile: bool, readable: bool, data: Bytes)

  /** `os.path.basename`. */
  function Basename(path: string): string {
    if path == "" || path[|path| - 1] == '/' then "" else Basename(path[..|path| - 1]) + [path[|path| - 1]]
  }

  predicate Refused(name: string) {
    name == "" || name == "." || Basename(name) != name || StartsWith(name, "/") || StartsWith(name, "..")
  }

  lemma {:induction false} BasenameOfFlat(path: string)
    ensures '/' !in path ==> Basename(path) == path
    ensures '/' in path ==> |Basename(path)| < |path|
  {
    if path != "" {
      var init := path[..|path| - 1];
      assert path == init + [path[|path| - 1]];
      BasenameOfFlat(init);
    }
  }

  /** A name that stays inside the directory it is written to. */
  predicate Flat(name: string) {
    name != "" && name != "." && '/' !in name && !StartsWith(name, "..")
  }

  lemma RefusedMeans(name: string)
    ensures Refused(name) <==> !Flat(name)
  {
    BasenameOfFlat(name);
    if StartsWith(name, "/") { assert name[0] == '/'; }
  }

  predicate Accepted(m: Member) {
    m.isFile ==> Flat(m.name) && m.readable
  }

  /** Bytes of all file members, repeated names included. */
  function Total(ms: seq<Member>): nat {
    if ms == [] then 0 else Total(ms[..|ms| - 1]) + if ms[|ms| - 1].isFile then |ms[|ms| - 1].data| else 0
  }

  function LastWins(ms: seq<Member>): map<string, Bytes> {
    if ms == [] then map[] else
      var m := ms[|ms| - 1];
      if m.isFile then LastWins(ms[..|ms| - 1])[m.name := m.data] else LastWins(ms[..|ms| - 1])
  }

  function Read(ms: seq<Member>): Option<map<string, Bytes>> {
    if (forall m | m in ms :: Accepted(m)) && Total(ms) <= CAP then Some(LastWins(ms)) else None
  }

  lemma {:induction false} TotalGrows(ms: seq<Member>, i: nat)
    requires i <= |ms|
    ensures Total(ms[..i]) <= Total(ms)
    decreases |ms| - i
  {
    if i < |ms| {
      assert ms[..i + 1][..i] == ms[..i];
      TotalGrows(ms, i + 1);
    } else {
      assert ms[..i] == ms;
    }
  }

  /** Every accepted member read whole, the last of a name kept, and never a byte more than the cap
      and one read into memory; otherwise nothing. */
  method ReadMembers(ms: seq<Member>) returns (r: Option<map<string, Bytes>>, held: nat)
    ensures r == Read(ms)
    ensures held <= CAP + 1
  {
    hide Flat, Refused;
    var files, total, i := map[], 0, 0;
    held := 0;
    while i < |ms|
      invariant i <= |ms| && total == Total(ms[..i]) && total <= CAP && files == LastWins(ms[..i])
      invariant held <= CAP + 1 && forall m | m in ms[..i] :: Accepted(m)
    {
      var m := ms[i];
      assert ms[..i + 1] == ms[..i] + [m] && ms[..i + 1][..i] == ms[..i] && m in ms;
      TotalGrows(ms, i + 1);
      RefusedMeans(m.name);
      if m.isFile {
        if Refused(m.name) || !m.readable {
          return None, held;
        }
        var remaining := CAP - total;
        var data := if |m.data| > remaining + 1 then m.data[..remaining + 1] else m.data;
        held := if total + |data| > held then total + |data| else held;
        if |data| > remaining {
          return None, held;
        }
        files, total := files[m.name := data], total + |data|;
      }
      i := i + 1;
    }
    assert ms[..i] == ms;
    r := Some(files);
  }

  /** The sizes of the file members, in order, repeated names included. */
  function FileSizes(ms: seq<Member>): seq<nat> {
    if ms == [] then []
    else FileSizes(ms[..|ms| - 1]) + if ms[|ms| - 1].isFile then [|ms[|ms| - 1].data|] else []
  }

  /** Member `i` is a file of this name, and no file after it has that name. */
  ghost predicate LastFile(ms: seq<Member>, i: nat, name: string) {
    i < |ms| && ms[i].isFile && ms[i].name == name && forall j | i < j < |ms| :: ms[j].isFile ==> ms[j].name != name
  }

  lemma {:induction false} TotalIs(ms: seq<Member>)
    ensures Total(ms) == Sum(FileSizes(ms))
  {
    if ms != [] {
      var init, m := ms[..|ms| - 1], ms[|ms| - 1];
      TotalIs(init);
      var sizes := FileSizes(init);
      assert (sizes + [|m.data|])[..|sizes|] == sizes;
      assert sizes + [] == sizes;
    }
  }

  lemma LastFileStep(init: seq<Member>, m: Member, i: nat, name: string)
    ensures LastFile(init + [m], i, name) <==>
            if i < |init| then LastFile(init, i, name) && !(m.isFile && m.name == name)
            else i == |init| && m.isFile && m.name == name
  {
    var ms := init + [m];
    assert ms[|init|] == m && forall j | 0 <= j < |init| :: ms[j] == init[j];
  }

  lemma {:induction false} LastWinsIs(ms: seq<Member>, name: string)
    ensures name in LastWins(ms) <==> exists i: nat :: LastFile(ms, i, name)
    ensures forall i: nat | LastFile(ms, i, name) :: name in LastWins(ms) && LastWins(ms)[name] == ms[i].data
  {
    if ms != [] {
      hide LastFile;
      var init, m := ms[..|ms| - 1], ms[|ms| - 1];
      assert ms == init + [m];
      LastWinsIs(init, name);
      forall i: nat
        ensures LastFile(ms, i, name) <==> if i < |init| then LastFile(init, i, name) && !(m.isFile && m.name == name)
                                           else i == |init| && m.isFile && m.name == name
      {
        LastFileStep(init, m, i, name);
      }
      if i: nat :| LastFile(init, i, name) { FileInside(init, i, name); }
      assert m.isFile && m.name == name ==> LastFile(ms, |init|, name);
    }
  }

  lemma FileInside(ms: seq<Member>, i: nat, name: string)
    requires LastFile(ms, i, name)
    ensures i < |ms|
  {
  }

  /** The members read: a map exactly when every file member has a flat name and can be read and all their
      bytes, repeated names included, fit 64 MiB; a name then has the bytes of its last file. */
  lemma ReadExactly(ms: seq<Member>)
    ensures Read(ms).Some? <==>
            (forall m | m in ms && m.isFile :: Flat(m.name) && m.readable) && Sum(FileSizes(ms)) <= 67_108_864
    ensures Read(ms).Some? ==> forall name ::
              && (name in Read(ms).value <==> exists i: nat :: LastFile(ms, i, name))
              && (forall i: nat | LastFile(ms, i, name) :: Read(ms).value[name] == ms[i].data)
  {
    hide Flat, LastWins, Total, FileSizes, Sum;
    TotalIs(ms);
    forall name
      ensures name in LastWins(ms) <==> exists i: nat :: LastFile(ms, i, name)
      ensures forall i: nat | LastFile(ms, i, name) :: name in LastWins(ms) && LastWins(ms)[name] == ms[i].data
    {
      LastWinsIs(ms, name);
    }
  }

  // ---------------------------------------------------------------- the size of an archive

  const BLOCK := 512
  const RECORD := 10240

  function Padded(n: nat, unit: nat): nat
    requires unit > 0
  {
    (n + unit - 1) / unit * unit
  }

  /** A 512-byte header and the padded content of each member. */
  function Content(sizes: seq<nat>): nat {
    if sizes == [] then 0 else Content(sizes[..|sizes| - 1]) + BLOCK + Padded(sizes[|sizes| - 1], BLOCK)
  }

  function Sum(sizes: seq<nat>): nat {
    if sizes == [] then 0 else Sum(sizes[..|sizes| - 1]) + sizes[|sizes| - 1]
  }

  /** Two zero blocks at the end, and the last record filled up. */
  function TarSize(sizes: seq<nat>): nat {
    Padded(Content(sizes) + 2 * BLOCK, RECORD)
  }

  lemma {:induction false} ContentBound(sizes: seq<nat>)
    ensures Content(sizes) <= Sum(sizes) + (2 * BLOCK - 1) * |sizes|
  {
    if sizes != [] {
      ContentBound(sizes[..|sizes| - 1]);
    }
  }

  /** Up to 1024 members, whatever fits the cap also fits the budget of the stream. */
  lemma StructureFits(sizes: seq<nat>)
    requires |sizes| <= 1024 && Sum(sizes) <= CAP
    ensures TarSize(sizes) <= CAP + OVERHEAD
  {
    ContentBound(sizes);
    assert Content(sizes) + 2 * BLOCK <= CAP + OVERHEAD;
    assert CAP + OVERHEAD == 6656 * RECORD;
  }

  /** For every larger count some payload inside the cap is refused: with a thousand and some members
      the padding of odd sizes adds up, with very many the headers alone. */
  lemma OneMemberTooMany(n: nat) returns (sizes: seq<nat>)
    requires n > 1024
    ensures |sizes| == n && Sum(sizes) <= CAP && TarSize(sizes) > CAP + OVERHEAD
  {
    if n > 66560 {
      sizes := seq(n, i => 0);
      ContentOfEqual(n, 0);
      ContentOfEqual(n, 1);
      if n <= CAP { sizes := seq(n, i => 1); }
      RoundedUp(Content(sizes) + 2 * BLOCK);
    } else {
      var ones, last := seq(n - 1, i => 1), (CAP - n) / BLOCK * BLOCK + 1;
      sizes := ones + [last];
      ContentOfEqual(n - 1, 1);
      assert sizes[..n - 1] == ones;
      OddPadding((CAP - n) / BLOCK);
      RoundedUp(Content(sizes) + 2 * BLOCK);
    }
  }

  lemma {:induction false} ContentOfEqual(n: nat, size: nat)
    requires size <= 1
    ensures Content(seq(n, i => size)) == (512 + 512 * size) * n && Sum(seq(n, i => size)) == size * n
  {
    var all := seq(n, i => size);
    if n > 0 {
      assert all[..n - 1] == seq(n - 1, i => size);
      ContentOfEqual(n - 1, size);
    }
  }

  lemma OddPadding(blocks: nat)
    ensures Padded(blocks * BLOCK + 1, BLOCK) == blocks * BLOCK + BLOCK
  {
    assert (blocks * BLOCK + 1 + BLOCK - 1) / BLOCK == blocks + 1;
  }

  lemma RoundedUp(n: nat)
    ensures Padded(n, RECORD) >= n
  {
  }

  /** The allowance for the archive's structure covers a count of members exactly up to 1024. */
  lemma AllowanceExact(n: nat)
    ensures (forall sizes | |sizes| == n && Sum(sizes) <= CAP :: TarSize(sizes) <= CAP + OVERHEAD) <==> n <= 1024
  {
    if n <= 1024 {
      forall sizes | |sizes| == n && Sum(sizes) <= CAP ensures TarSize(sizes) <= CAP + OVERHEAD {
        StructureFits(sizes);
      }
    } else {
      var sizes := OneMemberTooMany(n);
    }
  }

  // ---------------------------------------------------------------- from files to files

  /** The library formats: an archive of named byte strings, read back with its members' kinds, and
      compression. */
  datatype Codec = Codec(tar: seq<(string, Bytes)> -> Bytes, untar: Bytes -> Option<seq<Member>>,
                         gzip: Bytes -> Bytes, gunzip: Bytes -> Stream)

  function Sizes(files: seq<(string, Bytes)>): seq<nat> {
    seq(|files|, i requires 0 <= i < |files| => |files[i].1|)
  }

  function AsMembers(files: seq<(string, Bytes)>): seq<Member> {
    seq(|files|, i requires 0 <= i < |files| => Member(files[i].0, true, true, files[i].1))
  }

  /** Names that fit one header. */
  predicate Short(files: seq<(string, Bytes)>) {
    forall f | f in files :: |f.0| <= 100 && forall c | c in f.0 :: 0 < c as int < 128
  }

  /** What is assumed of the formats: they lose nothing and an archive has the size of its blocks. */
  ghost predicate Lossless(c: Codec) {
    && (forall files | Short(files) ::
          |c.tar(files)| == TarSize(Sizes(files)) && c.untar(c.tar(files)) == Some(AsMembers(files)))
    && forall b :: c.gunzip(c.gzip(b)) == Stream(b, true)
  }

  /** `build_payload`. */
  function Build(c: Codec, files: seq<(string, Bytes)>): string {
    Base64.Encode(c.gzip(c.tar(files)))
  }

  /** A map, None, or an exception out of the codecs. */
  datatype Extracted = Files(files: map<string, Bytes>) | Nothing | Crashed

  function Unpacked(c: Codec, g: Gunzipped): Extracted {
    match g
    case OverBudget => Nothing
    case Malformed => Crashed
    case Whole(raw) =>
      match c.untar(raw)
      case None => Crashed
      case Some(ms) => if Read(ms).Some? then Files(Read(ms).value) else Nothing
  }

  function Decoded(c: Codec, blob: string): Extracted {
    match Base64.Decode(blob)
    case None => Crashed
    case Some(z) => Unpacked(c, Budgeted(c.gunzip(z), CAP + OVERHEAD))
  }

  /** What `extract_payload` returns. */
  function Extraction(c: Codec, text: string, nonce: string): Extracted {
    match Framing.Block(text, nonce)
    case None => Nothing
    case Some(blob) => Decoded(c, blob)
  }

  method ExtractPayload(c: Codec, text: string, nonce: string) returns (r: Extracted)
    ensures r == Extraction(c, text, nonce)
  {
    var block := Framing.Block(text, nonce);
    if block.None? {
      return Nothing;
    }
    var z := Base64.Decode(block.value);
    if z.None? {
      return Crashed;
    }
    var gz := new Reader(c.gunzip(z.value));
    var raw := BoundedGunzip(gz, CAP + OVERHEAD);
    if raw.OverBudget? {
      return Nothing;
    }
    if raw.Malformed? || c.untar(raw.raw).None? {
      return Crashed;
    }
    var files, _ := ReadMembers(c.untar(raw.raw).value);
    r := if files.Some? then Files(files.value) else Nothing;
  }

  /** How the extraction comes out, stage by stage: files only from one block, within the budget of the
      stream, of an archive whose members are all taken; nothing where there is not exactly one block,
      the stream is too long or a member is refused; and an exception out of the codecs. */
  lemma ExtractionExactly(c: Codec, text: string, nonce: string)
    ensures var blob, r := Framing.Block(text, nonce), Extraction(c, text, nonce);
            var z := if blob.None? then None else Base64.Decode(blob.value);
            var s := if z.None? then Stream([], true) else c.gunzip(z.value);
            var fits := z.Some? && |s.data| <= 68_157_440;
            var ms := if fits && s.clean then c.untar(s.data) else None;
            && (r.Files? <==> ms.Some? && Read(ms.value).Some?) && (r.Files? ==> Some(r.files) == Read(ms.value))
            && (r == Crashed <==> blob.Some? && (z.None? || (fits && ms.None?)))
            && (r == Nothing <==> blob.None? || (z.Some? && !fits) || (ms.Some? && Read(ms.value).None?))
  {
    hide Framing.Block, Base64.Decode, Read;
  }

  /** The Pod's files as a dictionary: every name once. */
  predicate Distinct(files: seq<(string, Bytes)>) {
    forall i, j | 0 <= i < j < |files| :: files[i].0 != files[j].0
  }

  ghost function AsMap(files: seq<(string, Bytes)>): map<string, Bytes>
    requires Distinct(files)
  {
    map i | 0 <= i < |files| :: files[i].0 := files[i].1
  }

  lemma {:induction false} MembersTotal(files: seq<(string, Bytes)>)
    ensures Total(AsMembers(files)) == Sum(Sizes(files))
  {
    if files != [] {
      var n := |files| - 1;
      MembersTotal(files[..n]);
      assert AsMembers(files)[..n] == AsMembers(files[..n]) && Sizes(files)[..n] == Sizes(files[..n]);
    }
  }

  lemma {:induction false} MembersRead(files: seq<(string, Bytes)>)
    requires Distinct(files)
    ensures LastWins(AsMembers(files)) == AsMap(files)
  {
    if files != [] {
      var n := |files| - 1;
      MembersRead(files[..n]);
      assert AsMembers(files)[..n] == AsMembers(files[..n]);
      AsMapSnoc(files);
    }
  }

  lemma AsMapSnoc(files: seq<(string, Bytes)>)
    requires Distinct(files) && files != []
    ensures var n := |files| - 1; AsMap(files) == AsMap(files[..n])[files[n].0 := files[n].1]
  {
    var n := |files| - 1;
    var m := AsMap(files[..n]);
    assert forall i | 0 <= i < n :: files[..n][i] == files[i];
    assert forall k :: k in m <==> exists i :: 0 <= i < n && files[i].0 == k;
  }

  lemma AllAccepted(files: seq<(string, Bytes)>)
    ensures (forall m | m in AsMembers(files) :: Accepted(m)) <==> (forall f | f in files :: Flat(f.0))
  {
    hide Flat;
    var ms := AsMembers(files);
    assert forall i | 0 <= i < |files| :: ms[i] in ms && (Accepted(ms[i]) <==> Flat(files[i].0));
  }

  /** The sum of the bytes fits the cap, and the archive the stream budget. */
  predicate FitsBudgets(files: seq<(string, Bytes)>) {
    Sum(Sizes(files)) <= CAP && TarSize(Sizes(files)) <= CAP + OVERHEAD
  }

  /** What the Pod prints comes back through any noise around it: exactly its files when their names
      are flat, their bytes fit the cap and the archive fits its budget, and nothing otherwise. */
  lemma PayloadRoundTrip(c: Codec, files: seq<(string, Bytes)>, pre: string, nonce: string, post: string)
    requires Lossless(c) && Short(files) && Distinct(files) && Framing.Nonce(nonce)
    requires Framing.Find(Framing.Begin(nonce), pre).None? && Framing.Find(Framing.Begin(nonce), post).None?
    requires !Framing.Straddles(pre, Framing.Begin(nonce))
    ensures Extraction(c, pre + Framing.Printed(nonce, Build(c, files)) + post, nonce)
            == if (forall f | f in files :: Flat(f.0)) && FitsBudgets(files) then Files(AsMap(files)) else Nothing
    ensures |files| <= 1024 ==> (FitsBudgets(files) <==> Sum(Sizes(files)) <= CAP)
  {
    hide Framing.Block, Framing.Straddles, Framing.Find, Framing.Nonce, Framing.Begin, Framing.Printed;
    hide Base64.Encode, Base64.Decode, TarSize, Sizes, Total, LastWins, Sum, Flat, AsMap, AsMembers, Short;
    var raw := c.tar(files);
    var z := c.gzip(raw);
    Base64.EncodeAlphabet(z);
    Base64.DecodeOfEncode(z);
    Framing.BlockOfPrinted(pre, nonce, Base64.Encode(z), post);
    assert Extraction(c, pre + Framing.Printed(nonce, Build(c, files)) + post, nonce) == Decoded(c, Base64.Encode(z));
    if Sum(Sizes(files)) <= CAP && |files| <= 1024 {
      SizesLength(files);
      StructureFits(Sizes(files));
    }
    MembersRead(files);
    MembersTotal(files);
    AllAccepted(files);
  }

  lemma SizesLength(files: seq<(string, Bytes)>)
    ensures |Sizes(files)| == |files|
  {
  }
}
