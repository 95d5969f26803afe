/** The rule that makes a ticket path declarable (launcher/ticket.py:62-129). */
module Carveout {
  import opened Text
  import opened FileTree

  const ZONES: seq<string> := ["src", "tests", "docs", "scripts"]

  /** `os.path.dirname` on the components of a relative path: drop the last, then trailing slashes. */
  function DirName(p: Names): (r: Names)
    requires p != []
    ensures |r| < |p| && r <= p
    ensures forall k | |r| <= k < |p| - 1 :: p[k] == ""
  {
    TrimSlashes(p[..|p| - 1])
  }

  function TrimSlashes(p: Names): (r: Names)
    ensures |r| <= |p| && r <= p
    ensures r == [] || r[|r| - 1] != ""
    ensures forall k | |r| <= k < |p| :: p[k] == ""
  {
    if p == [] || p[|p| - 1] != "" then p else TrimSlashes(p[..|p| - 1])
  }

  /** Absolute, climbing, starting at `./`, or a zone's own name. */
  predicate BadForm(p: Names) {
    || (|p| > 1 && p[0] in ["", "."]) || ".." in p
    || (|TrimSlashes(p)| == 1 && TrimSlashes(p)[0] in ZONES)
  }

  predicate HasLink(fs: Tree, root: Names, p: Names, n: nat)
    requires n <= |p|
  {
    exists k | 0 < k <= n :: IsLink(fs, root, p[..k])
  }

  function Ancestor(fs: Tree, root: Names, carve: Names): Option<Names>
    decreases |carve|
  {
    if carve == [] || carve == [""] then None
    else if IsDir(fs, root, carve) then Some(carve)
    else Ancestor(fs, root, DirName(carve))
  }

  /** `resolved.startswith(root + os.sep)` and the zone of the resolved location. */
  predicate ResolvesInZone(root: Names, resolved: Option<Names>) {
    && resolved.Some? && |resolved.value| > |root| && root <= resolved.value
    && resolved.value[|root|] in ZONES
  }

  function Carve(fs: Tree, root: Names, p: Names): Option<Names>
    requires p != []
  {
    if BadForm(p) || HasLink(fs, root, p, |p|) || !ResolvesInZone(root, RealPath(fs, root, p)) then None
    else if Exists(fs, root, p) then Some(p)
    else Ancestor(fs, root, DirName(p))
  }

  /** `declared_carveout` on the components of the declared path. */
  method DeclaredCarveout(fs: Tree, root: Names, rel: string) returns (r: Option<Names>)
    ensures r == Carve(fs, root, Split(rel, '/'))
  {
    var p := Split(rel, '/');
    if BadForm(p) {
      return None;
    }
    for k := 0 to |p|
      invariant !HasLink(fs, root, p, k)
    {
      if IsLink(fs, root, p[..k + 1]) {
        return None;
      }
    }
    if !ResolvesInZone(root, RealPath(fs, root, p)) {
      return None;
    }
    if Exists(fs, root, p) {
      return Some(p);
    }
    var carve := DirName(p);
    while carve != [] && carve != [""]
      invariant Ancestor(fs, root, DirName(p)) == Ancestor(fs, root, carve)
      decreases |carve|
    {
      if IsDir(fs, root, carve) {
        return Some(carve);
      }
      carve := DirName(carve);
    }
    r := None;
  }

  lemma RealPathOf(fs: Tree, root: Names, p: Names)
    requires WellFormed(fs) && ".." !in p && !HasLink(fs, root, p, |p|)
    ensures Straight(fs, root, p) && RealPath(fs, root, p) == Some(root + Normal(p))
  {
    NoLinkPrefix(fs, root, p);
    StraightReal(fs, root, p, MAX_LINKS);
  }

  lemma {:induction false} AncestorMeaning(fs: Tree, root: Names, carve: Names)
    ensures var r := Ancestor(fs, root, carve);
            match r
            case None => forall k | 0 < k <= |carve| && carve[k - 1] != "" :: !IsDir(fs, root, carve[..k])
            case Some(c) => c != [] && c != [""] && c <= carve && IsDir(fs, root, c)
                            && forall k | |c| < k <= |carve| && carve[k - 1] != "" :: !IsDir(fs, root, carve[..k])
    decreases |carve|
  {
    if carve != [] && carve != [""] && !IsDir(fs, root, carve) {
      var up := DirName(carve);
      AncestorMeaning(fs, root, up);
      forall k | 0 < k <= |carve| && carve[k - 1] != "" && (k <= |up| ==> !IsDir(fs, root, up[..k]))
        ensures !IsDir(fs, root, carve[..k])
      {
        if k <= |up| {
          assert carve[..k] == up[..k];
        } else {
          assert k == |carve| && carve[..k] == carve;
        }
      }
    }
  }

  /** An accepted path never climbs, has no link among its components, and its resolved location is
      the path itself, in a writable zone. If it exists it stands for itself; if not, the result is
      its nearest existing ancestor directory, non-empty and in the same zone. */
  lemma CarveMeaning(fs: Tree, root: Names, p: Names)
    requires WellFormed(fs) && p != [] && Carve(fs, root, p).Some?
    ensures var c := Carve(fs, root, p).value;
      && ".." !in p && (forall k | 0 < k <= |p| :: !IsLink(fs, root, p[..k]))
      && RealPath(fs, root, p) == Some(root + Normal(p))
      && Normal(p) != [] && p[0] == Normal(p)[0] && p[0] in ZONES
      && (Exists(fs, root, p) ==> c == p)
      && (!Exists(fs, root, p) ==>
            && c < p && IsDir(fs, root, c) && Normal(c) != [] && Normal(c)[0] == p[0]
            && forall k | |c| < k < |p| && p[k - 1] != "" :: !IsDir(fs, root, p[..k]))
  {
    hide Walk, Straight, WellFormed, Stat, IsDir, RealPath, IsLink, Exists, Ancestor, Normal, TrimSlashes;
    RealPathOf(fs, root, p);
    var c := Carve(fs, root, p).value;
    var resolved := root + Normal(p);
    assert Normal(p) != [] && resolved[|root|] == Normal(p)[0];
    FirstComponent(p);
    if !Exists(fs, root, p) {
      var up := DirName(p);
      AncestorMeaning(fs, root, up);
      assert c <= up && c[0] == p[0];
      FirstComponent(c);
      forall k | |c| < k < |p| && p[k - 1] != "" ensures !IsDir(fs, root, p[..k]) {
        assert p[..k] == up[..k];
      }
    }
  }

  // ---------------------------------------------------------------- both directions

  /** A zone, and nothing but slashes after it. */
  predicate ZoneName(p: Names) {
    p != [] && p[0] in {"src", "tests", "docs", "scripts"} && forall k | 1 <= k < |p| :: p[k] == ""
  }

  /** A directory on the way to the path: a shorter part of it that does not end in a slash. */
  ghost predicate DirOnTheWay(fs: Tree, root: Names, p: Names, k: nat) {
    0 < k < |p| && p[k - 1] != "" && IsDir(fs, root, p[..k])
  }

  /** What makes a path declarable: relative and not starting at `./`, not climbing, not a zone's own
      name, its first component a zone, no component a link; and it exists or lies on a way that does. */
  ghost predicate Declarable(fs: Tree, root: Names, p: Names) {
    && p != [] && ".." !in p && !(|p| > 1 && p[0] in {"", "."}) && !ZoneName(p)
    && p[0] in {"src", "tests", "docs", "scripts"}
    && (forall k | 0 < k <= |p| :: !IsLink(fs, root, p[..k]))
    && (Exists(fs, root, p) || exists k: nat :: DirOnTheWay(fs, root, p, k))
  }

  lemma ZonesAre(name: string)
    ensures name in ZONES <==> name in {"src", "tests", "docs", "scripts"}
  {
    assert ZONES[0] == "src" && ZONES[1] == "tests" && ZONES[2] == "docs" && ZONES[3] == "scripts";
  }

  lemma ZoneNamed(p: Names)
    requires p != []
    ensures ZoneName(p) <==> |TrimSlashes(p)| == 1 && TrimSlashes(p)[0] in ZONES
  {
    ZonesAre(p[0]);
    if ZoneName(p) { TrimToHead(p); }
  }

  /** The first component decides the zone of a path that resolves to itself. */
  lemma ZoneOfFirst(root: Names, p: Names)
    requires p != [] && !(|p| > 1 && p[0] in {"", "."})
    ensures ResolvesInZone(root, Some(root + Normal(p))) <==> p[0] in {"src", "tests", "docs", "scripts"}
  {
    hide Normal;
    FirstComponent(p);
    ZonesAre(p[0]);
    var n := Normal(p);
    if n != [] {
      assert (root + n)[|root|] == n[0] && root <= root + n;
    } else {
      assert root + n == root;
    }
  }

  lemma AncestorOnTheWay(fs: Tree, root: Names, p: Names)
    requires p != []
    ensures Ancestor(fs, root, DirName(p)).Some? <==> exists k: nat :: DirOnTheWay(fs, root, p, k)
    ensures var r := Ancestor(fs, root, DirName(p));
            r.Some? ==> DirOnTheWay(fs, root, p, |r.value|) && r.value == p[..|r.value|]
                        && forall k: nat | DirOnTheWay(fs, root, p, k) :: k <= |r.value|
  {
    hide IsDir;
    var up := DirName(p);
    var r := Ancestor(fs, root, up);
    hide Ancestor;
    DirNameTight(p);
    AncestorMeaning(fs, root, up);
    AncestorTight(fs, root, up);
    forall k: nat | DirOnTheWay(fs, root, p, k)
      ensures r.Some? && k <= |r.value|
    {
      assert k <= |up| && p[..k] == up[..k] && up[k - 1] == p[k - 1];
    }
    if r.Some? {
      var k := |r.value|;
      assert r.value == up[..k] == p[..k] && p[k - 1] == r.value[k - 1];
      assert DirOnTheWay(fs, root, p, k);
    }
  }

  lemma DirNameTight(p: Names)
    requires p != []
    ensures DirName(p) == [] || DirName(p)[|DirName(p)| - 1] != ""
  {
  }

  lemma {:induction false} AncestorTight(fs: Tree, root: Names, carve: Names)
    requires carve == [] || carve[|carve| - 1] != ""
    ensures var r := Ancestor(fs, root, carve); r.Some? ==> r.value != [] && r.value[|r.value| - 1] != ""
    decreases |carve|
  {
    hide IsDir;
    if carve != [] && carve != [""] && !IsDir(fs, root, carve) {
      DirNameTight(carve);
      AncestorTight(fs, root, DirName(carve));
    }
  }

  /** On any tree, a path is declarable exactly under these conditions; it then stands for itself if it
      exists, and else for the longest existing directory on the way to it. */
  lemma CarveExactly(fs: Tree, root: Names, p: Names)
    requires WellFormed(fs) && p != []
    ensures Carve(fs, root, p).Some? <==> Declarable(fs, root, p)
    ensures Declarable(fs, root, p) && Exists(fs, root, p) ==> Carve(fs, root, p) == Some(p)
    ensures Declarable(fs, root, p) && !Exists(fs, root, p) ==>
              exists k: nat :: DirOnTheWay(fs, root, p, k) && Carve(fs, root, p) == Some(p[..k])
                               && forall j: nat | DirOnTheWay(fs, root, p, j) :: j <= k
  {
    hide IsDir, IsLink, Exists, WellFormed, RealPath, Straight, DirOnTheWay, Ancestor, DirName, ResolvesInZone;
    ZoneNamed(p);
    AncestorOnTheWay(fs, root, p);
    if ".." !in p && !HasLink(fs, root, p, |p|) {
      RealPathOf(fs, root, p);
      if !(|p| > 1 && p[0] in {"", "."}) { ZoneOfFirst(root, p); }
    }
  }

  lemma FirstComponent(p: Names)
    requires p != []
    ensures !Skipped(p[0]) ==> Normal(p) != [] && Normal(p)[0] == p[0]
    ensures Skipped(p[0]) && |p| == 1 ==> Normal(p) == []
  {
  }

  /** The gate refuses a zone's own name, but not the same directory spelled with a dot. An accepted
      path that names nothing below its zone is exactly such a spelling. */
  lemma ZoneItself(fs: Tree, root: Names, p: Names)
    requires WellFormed(fs) && p != [] && Carve(fs, root, p).Some?
    ensures |Normal(p)| == 1 <==> (forall n | n in p[1..] :: Skipped(n)) && "." in p[1..]
  {
    hide Carve;
    CarveMeaning(fs, root, p);
    AcceptedForm(fs, root, p);
    assert Normal(p) == [p[0]] + Normal(p[1..]);
    AllSkipped(p[1..]);
    if (forall n | n in p[1..] :: Skipped(n)) && "." !in p[1..] {
      OnlySlashes(p);
      TrimToHead(p);
      assert false;
    }
  }

  lemma OnlySlashes(p: Names)
    requires p != [] && (forall n | n in p[1..] :: Skipped(n)) && "." !in p[1..]
    ensures forall k | 1 <= k < |p| :: p[k] == ""
  {
    forall k | 1 <= k < |p| ensures p[k] == "" {
      var n := p[1..][k - 1];
      assert n in p[1..] && n == p[k];
    }
  }

  lemma AcceptedForm(fs: Tree, root: Names, p: Names)
    requires p != [] && Carve(fs, root, p).Some?
    ensures !BadForm(p)
  {
  }

  lemma {:induction false} AllSkipped(p: Names)
    ensures Normal(p) == [] <==> forall n | n in p :: Skipped(n)
  {
    if p != [] {
      AllSkipped(p[1..]);
    }
  }

  lemma {:induction false} TrimToHead(p: Names)
    requires p != [] && p[0] != "" && forall k | 1 <= k < |p| :: p[k] == ""
    ensures TrimSlashes(p) == [p[0]]
    decreases |p|
  {
    if |p| > 1 {
      TrimToHead(p[..|p| - 1]);
    }
  }

  lemma DottedWalk(strict: bool)
    ensures var fs: Tree := map[["src"] := Dir];
            && Walk(fs, [], ["src", "."], MAX_LINKS, strict) == Some(["src"])
            && Walk(fs, [], [], MAX_LINKS, strict) == Some([])
            && Walk(fs, [], ["src"], MAX_LINKS, strict) == Some(["src"])
  {
    var fs: Tree := map[["src"] := Dir];
    assert ["src", "."][1..] == ["."] && ["."][1..] == [] && [] + ["src"] == ["src"] && ["src"][1..] == [];
    assert Walk(fs, ["src"], [], MAX_LINKS, strict) == Some(["src"]);
    assert Walk(fs, ["src"], ["."], MAX_LINKS, strict) == Some(["src"]);
  }

  /** The directory `src` itself, spelled `src/.`, is declarable. */
  lemma DottedZoneAccepted()
    ensures var fs: Tree := map[["src"] := Dir];
            WellFormed(fs) && Carve(fs, [], ["src", "."]) == Some(["src", "."])
  {
    hide Walk;
    var fs: Tree := map[["src"] := Dir];
    var p := ["src", "."];
    DottedWalk(true);
    DottedWalk(false);
    assert p[..1] == ["src"] && p[..2] == p && ["src"][..0] == [];
    assert Stat(fs, [], p) == Some(["src"]);
    assert RealPath(fs, [], p) == Some(["src"]);
  }
}
