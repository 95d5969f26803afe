/** Protected files, manifests and their comparison (launcher/verify.py:230-391), and the ticket gate
    that keeps the comparison's exemption from ever firing (launcher/ticket.py:244-348). */
module Contract {
  import opened Text
  import opened FileTree
  import Carveout

  const CACHE := "__pycache__"

  // ---------------------------------------------------------------- listings

  /** The non-directory entries `os.walk` finds below `top`: cache directories and links to
      directories are not entered, and links to directories are listed as directories. */
  function WalkFiles(fs: Tree, root: Names, top: string): set<Names> {
    if !IsDir(fs, root, [top]) then {}
    else
      var base := Stat(fs, root, [top]).value;
      set q | q in fs && |base| < |q| && base <= q && CACHE !in q[|base|..|q| - 1]
              && !IsDir(fs, q[..|q| - 1], [q[|q| - 1]])
           :: [top] + q[|base|..]
  }

  const RUN_SH: Names := ["scripts", "run.sh"]
  const STACKS: Names := ["scripts", "stacks"]

  /** `_protected_files`: the files below tests/, an existing scripts/run.sh and the stack manifests. */
  function Protected(fs: Tree, root: Names): set<Names> {
    WalkFiles(fs, root, "tests")
    + (if IsFile(fs, root, RUN_SH) then {RUN_SH} else {})
    + (if IsDir(fs, root, STACKS) then StackManifests(fs, Stat(fs, root, STACKS).value) else {})
  }

  function StackManifests(fs: Tree, base: Names): set<Names> {
    set q | q in fs && |q| == |base| + 1 && base <= q && EndsWith(q[|base|], ".toml") :: STACKS + q[|base|..]
  }

  function SrcFiles(fs: Tree, root: Names): set<Names> {
    WalkFiles(fs, root, "src")
  }

  // ---------------------------------------------------------------- manifests

  /** A digest stands for the bytes it was computed from. */
  datatype Digest = Sha(content: Bytes) | Unreadable

  type Manifest = map<Names, Digest>

  function DigestOf(fs: Tree, root: Names, rel: Names): Digest {
    if IsFile(fs, root, rel) && fs[Stat(fs, root, rel).value].readable
    then Sha(fs[Stat(fs, root, rel).value].content)
    else Unreadable
  }

  /** `_tests_manifest`, which is also the pre-run snapshot. */
  function ManifestOf(fs: Tree, root: Names): Manifest {
    map rel | rel in Protected(fs, root) + SrcFiles(fs, root) :: DigestOf(fs, root, rel)
  }

  datatype Violation = Deleted(rel: Names) | Modified(rel: Names) | Undeclared(rel: Names)

  predicate Under(rel: Names, top: string) {
    |rel| >= 2 && rel[0] == top
  }

  predicate Exempt(rel: Names, declared: seq<Names>) {
    rel in declared || Under(rel, "src")
  }

  function BeforeViolation(rel: Names, before: Manifest, after: Manifest, declared: seq<Names>): set<Violation>
    requires rel in before
  {
    if Exempt(rel, declared) then {}
    else if rel !in after then {Deleted(rel)}
    else if after[rel] != before[rel] then {Modified(rel)}
    else {}
  }

  function AfterViolation(rel: Names, before: Manifest, declared: seq<Names>): set<Violation> {
    if rel in before || rel in declared then {}
    else if Under(rel, "tests") || Under(rel, "src") then {Undeclared(rel)}
    else {}
  }

  /** The comparison's first loop reports `v` for one of `rels`, its second loop likewise. */
  ghost predicate BeforeReports(v: Violation, rels: set<Names>, before: Manifest, after: Manifest, declared: seq<Names>)
    requires rels <= before.Keys
  {
    exists rel | rel in rels :: v in BeforeViolation(rel, before, after, declared)
  }

  ghost predicate AfterReports(v: Violation, rels: set<Names>, before: Manifest, declared: seq<Names>) {
    exists rel | rel in rels :: v in AfterViolation(rel, before, declared)
  }

  ghost predicate Reported(v: Violation, before: Manifest, after: Manifest, declared: seq<Names>) {
    BeforeReports(v, before.Keys, before, after, declared) || AfterReports(v, after.Keys, before, declared)
  }

  /** `_compare_manifests`. The source walks two dictionaries; the report is kept as a set. */
  method CompareManifests(before: Manifest, after: Manifest, declared: seq<Names>) returns (r: set<Violation>)
    ensures forall v :: v in r <==> Reported(v, before, after, declared)
  {
    r := {};
    var todo := before.Keys;
    ghost var seen: set<Names> := {};
    while todo != {}
      invariant seen + todo == before.Keys
      invariant forall v :: v in r <==> BeforeReports(v, seen, before, after, declared)
      decreases todo
    {
      var rel :| rel in todo;
      todo, seen := todo - {rel}, seen + {rel};
      r := r + BeforeViolation(rel, before, after, declared);
    }
    ghost var first := r;
    todo, seen := after.Keys, {};
    while todo != {}
      invariant seen + todo == after.Keys
      invariant forall v :: v in r <==> v in first || AfterReports(v, seen, before, declared)
      decreases todo
    {
      var rel :| rel in todo;
      todo, seen := todo - {rel}, seen + {rel};
      r := r + AfterViolation(rel, before, declared);
    }
  }

  /** Nothing protected changed and nothing undeclared appeared under tests/ or src/. */
  ghost predicate Intact(before: Manifest, after: Manifest, declared: seq<Names>) {
    && (forall rel | rel in before && !Exempt(rel, declared) :: rel in after && after[rel] == before[rel])
    && (forall rel | rel in after && (Under(rel, "tests") || Under(rel, "src")) :: rel in before || rel in declared)
  }

  /** The comparison is silent exactly when the contract is intact. */
  lemma EmptyReport(before: Manifest, after: Manifest, declared: seq<Names>)
    ensures (forall v :: !Reported(v, before, after, declared)) <==> Intact(before, after, declared)
  {
    if forall v :: !Reported(v, before, after, declared) {
      forall rel | rel in before && !Exempt(rel, declared) ensures rel in after && after[rel] == before[rel] {
        assert !Reported(Deleted(rel), before, after, declared);
        assert !Reported(Modified(rel), before, after, declared);
        assert Deleted(rel) !in BeforeViolation(rel, before, after, declared);
        assert Modified(rel) !in BeforeViolation(rel, before, after, declared);
      }
      forall rel | rel in after && (Under(rel, "tests") || Under(rel, "src")) ensures rel in before || rel in declared {
        assert !Reported(Undeclared(rel), before, after, declared);
        assert Undeclared(rel) !in AfterViolation(rel, before, declared);
      }
    }
  }

  // ---------------------------------------------------------------- the ticket gate

  datatype Ticket = Ticket(declared: seq<Names>, edits: seq<Names>, accepts: seq<Names>)

  /** `_validate_accept_paths`, one path. */
  predicate AcceptOk(fs: Tree, root: Names, rel: Names, declared: seq<Names>)
    requires rel != []
  {
    Carveout.Carve(fs, root, rel).Some? && rel[0] == "tests" && IsFile(fs, root, rel) && rel !in declared
  }

  /** Header validation, `assert_create_paths_are_new` and `assert_edit_paths_are_not_protected`. */
  predicate Admitted(t: Ticket, fs: Tree, root: Names) {
    && (forall rel | rel in t.declared :: rel != [] && Carveout.Carve(fs, root, rel).Some?)
    && (forall rel | rel in t.accepts :: rel != [] && AcceptOk(fs, root, rel, t.declared))
    && (forall rel | rel in t.declared && rel !in t.edits :: !Exists(fs, root, rel))
    && (forall rel | rel in t.edits :: rel !in Protected(fs, root))
  }

  /** A declarable path whose parts are all entries below the root resolves to its own entry, which
      is no link. */
  lemma DeclarableEntry(fs: Tree, root: Names, rel: Names)
    requires WellFormed(fs) && rel != [] && Carveout.Carve(fs, root, rel).Some? && root + rel in fs
    ensures Stat(fs, root, rel) == Some(root + rel) && !LinkAt(fs, root + rel)
  {
    Carveout.RealPathOf(fs, root, rel);
    EntryStat(fs, root, rel, MAX_LINKS);
    EntryNoLink(fs, root, rel);
  }

  lemma {:induction false} EntryNoLink(fs: Tree, done: Names, todo: Names)
    requires WellFormed(fs) && Straight(fs, done, todo) && todo != [] && done + todo in fs
    ensures !LinkAt(fs, done + todo)
    decreases |todo|
  {
    var entry, name := done + todo, todo[0];
    assert name == entry[|done|] && name in entry;
    if |todo| == 1 {
      assert done + [name] == entry;
    } else {
      assert done + [name] + todo[1..] == entry;
      EntryNoLink(fs, done + [name], todo[1..]);
    }
  }

  lemma Rebase(root: Names, top: Names, q: Names)
    requires root + top <= q
    ensures root + (top + q[|root + top|..]) == q
  {
    var tail := q[|root + top|..];
    assert root + (top + tail) == root + top + tail;
  }

  /** A protected file below tests/ is an entry of its own path, if tests/ is no link. */
  lemma WalkedEntry(fs: Tree, root: Names, top: string, rel: Names)
    requires WellFormed(fs) && rel in WalkFiles(fs, root, top) && Stat(fs, root, [top]) == Some(root + [top])
    ensures rel != [] && root + rel in fs
  {
    hide Walk;
    var base := root + [top];
    var q :| q in fs && |base| < |q| && base <= q && rel == [top] + q[|base|..];
    Rebase(root, [top], q);
  }

  lemma StraightTop(fs: Tree, root: Names, rel: Names)
    requires rel != [] && Proper(rel[0]) && Straight(fs, root, rel)
    ensures Stat(fs, root, [rel[0]]).Some? ==> Stat(fs, root, [rel[0]]) == Some(root + [rel[0]])
  {
    assert [rel[0]][1..] == [];
    assert Walk(fs, root + [rel[0]], [], MAX_LINKS, true) == Some(root + [rel[0]]);
  }

  /** A declarable path that is protected exists, so a `create` line may not name it. */
  lemma ProtectedExists(fs: Tree, root: Names, rel: Names)
    requires WellFormed(fs) && rel != [] && Carveout.Carve(fs, root, rel).Some? && rel in Protected(fs, root)
    ensures Exists(fs, root, rel)
  {
    Carveout.RealPathOf(fs, root, rel);
    if rel in WalkFiles(fs, root, "tests") {
      assert rel[0] == "tests";
      StraightTop(fs, root, rel);
      WalkedEntry(fs, root, "tests", rel);
      DeclarableEntry(fs, root, rel);
    } else if IsFile(fs, root, RUN_SH) && rel == RUN_SH {
    } else {
      StacksEntry(fs, root, rel);
      DeclarableEntry(fs, root, rel);
    }
  }

  lemma StacksBase(fs: Tree, root: Names, rel: Names)
    requires Straight(fs, root, rel) && STACKS <= rel && Stat(fs, root, STACKS).Some?
    ensures Stat(fs, root, STACKS).value == root + STACKS
  {
    var a := root + ["scripts"];
    assert STACKS[1..] == ["stacks"] && ["stacks"][1..] == [];
    assert rel[0] == "scripts" && rel[1] == "stacks" && rel[1..][0] == "stacks";
    assert !LinkAt(fs, a) && !LinkAt(fs, a + ["stacks"]);
    assert Walk(fs, a + ["stacks"], [], MAX_LINKS, true) == Some(a + ["stacks"]);
    assert a + ["stacks"] == root + STACKS;
  }

  lemma StacksEntry(fs: Tree, root: Names, rel: Names)
    requires WellFormed(fs) && Straight(fs, root, rel) && IsDir(fs, root, STACKS)
    requires rel in StackManifests(fs, Stat(fs, root, STACKS).value)
    ensures root + rel in fs
  {
    hide Walk;
    var base := Stat(fs, root, STACKS).value;
    var q :| q in fs && |q| == |base| + 1 && base <= q && rel == STACKS + q[|base|..];
    StacksBase(fs, root, rel);
    Rebase(root, STACKS, q);
  }

  /** No ticket the gate admits declares a protected file: the exemption for declared paths never fires. */
  lemma ExemptionNeverFires(t: Ticket, fs: Tree, root: Names)
    requires WellFormed(fs) && Admitted(t, fs, root)
    ensures forall rel | rel in t.declared :: rel !in Protected(fs, root)
  {
    forall rel | rel in t.declared ensures rel !in Protected(fs, root) {
      if rel !in t.edits && rel in Protected(fs, root) {
        ProtectedExists(fs, root, rel);
      }
    }
  }

  /** Spelled without `.`, `..` or doubled slashes, and outside the interpreter's caches. */
  predicate Canonical(rel: Names) {
    rel != [] && (forall n | n in rel :: Proper(n)) && CACHE !in rel[..|rel| - 1]
  }

  lemma AcceptEntry(fs: Tree, root: Names, rel: Names, declared: seq<Names>)
    requires WellFormed(fs) && Canonical(rel) && AcceptOk(fs, root, rel, declared)
    ensures Straight(fs, root, rel) && |rel| > 1 && root + rel in fs && fs[root + rel].File?
  {
    hide Walk;
    Carveout.RealPathOf(fs, root, rel);
    ProperIsNormal(rel);
    StrictAgrees(fs, root, rel, MAX_LINKS);
    Carveout.AcceptedForm(fs, root, rel);
    assert Proper(rel[0]);
    if |rel| == 1 {
      Carveout.TrimToHead(rel);
      assert false;
    }
  }

  lemma StatDir(fs: Tree, root: Names, rel: Names)
    requires Stat(fs, root, rel).Some? && DirAt(fs, Stat(fs, root, rel).value)
    ensures IsDir(fs, root, rel)
  {
    hide Walk;
  }

  lemma InWalk(fs: Tree, root: Names, rel: Names)
    requires |rel| > 1 && CACHE !in rel[..|rel| - 1] && root + rel in fs
    requires Stat(fs, root, [rel[0]]) == Some(root + [rel[0]]) && DirAt(fs, root + [rel[0]])
    requires var q := root + rel; !IsDir(fs, q[..|q| - 1], [q[|q| - 1]])
    ensures rel in WalkFiles(fs, root, rel[0])
  {
    hide Walk, IsDir, Stat;
    var q, base := root + rel, root + [rel[0]];
    StatDir(fs, root, [rel[0]]);
    BelowTop(root, rel);
    assert CACHE !in q[|base|..|q| - 1];
  }

  lemma BelowTop(root: Names, rel: Names)
    requires |rel| > 1
    ensures var q, base := root + rel, root + [rel[0]];
            && base <= q && |base| < |q| && [rel[0]] + q[|base|..] == rel
            && q[|base|..|q| - 1] == rel[..|rel| - 1][1..]
  {
    var q, base := root + rel, root + [rel[0]];
    assert q[|base|..] == rel[1..] && [rel[0]] + rel[1..] == rel;
    assert q[|base|..|q| - 1] == rel[..|rel| - 1][1..];
  }

  /** A canonically spelled accept file is a protected file. */
  lemma AcceptProtected(fs: Tree, root: Names, rel: Names, declared: seq<Names>)
    requires WellFormed(fs) && Canonical(rel) && AcceptOk(fs, root, rel, declared)
    ensures rel in Protected(fs, root)
  {
    hide Walk, Carveout.Carve, WellFormed, Straight, Stat, IsDir, IsFile;
    AcceptEntry(fs, root, rel, declared);
    assert Proper(rel[0]);
    TopDir(fs, root, rel);
    FileNoDir(fs, root + rel);
    InWalk(fs, root, rel);
  }

  lemma TopDir(fs: Tree, root: Names, rel: Names)
    requires WellFormed(fs) && |rel| > 1 && root + rel in fs && Straight(fs, root, rel) && Proper(rel[0])
    ensures Stat(fs, root, [rel[0]]) == Some(root + [rel[0]]) && DirAt(fs, root + [rel[0]])
  {
    var q := root + rel;
    DirsBelow(fs, q[..|q| - 1], |root| + 1);
    DirsBelow(fs, q[..|q| - 1], |root|);
    assert q[..|q| - 1][..|root| + 1] == root + [rel[0]] && q[..|q| - 1][..|root|] == root;
    assert [rel[0]][1..] == [];
    assert Walk(fs, root + [rel[0]], [], MAX_LINKS, true) == Some(root + [rel[0]]);
  }

  lemma FileNoDir(fs: Tree, q: Names)
    requires WellFormed(fs) && q in fs && fs[q].File?
    ensures q != [] && !IsDir(fs, q[..|q| - 1], [q[|q| - 1]])
  {
    var dir, name := q[..|q| - 1], q[|q| - 1];
    assert dir + [name] == q && [name][1..] == [] && name in q && Proper(name);
    assert Walk(fs, q, [], MAX_LINKS, true) == Some(q);
  }

  lemma WalkedUnder(fs: Tree, root: Names, top: string)
    ensures forall rel | rel in WalkFiles(fs, root, top) :: Under(rel, top)
  {
  }

  /** Leaving out what lies under src/ leaves exactly the protected part of a snapshot. */
  lemma SnapshotSplit(fs: Tree, root: Names)
    ensures forall rel | rel in ManifestOf(fs, root) :: !Under(rel, "src") <==> rel in Protected(fs, root)
    ensures forall rel | rel in Protected(fs, root) ::
              rel in ManifestOf(fs, root) && ManifestOf(fs, root)[rel] == DigestOf(fs, root, rel)
  {
    hide Walk;
    WalkedUnder(fs, root, "tests");
    WalkedUnder(fs, root, "src");
  }

  /** Every protected file of the tree kept its digest, and every new file under tests/ or src/ is declared. */
  ghost predicate Keeps(fs: Tree, root: Names, after: Manifest, declared: seq<Names>) {
    && (forall rel | rel in Protected(fs, root) :: rel in after && after[rel] == DigestOf(fs, root, rel))
    && (forall rel | rel in after && (Under(rel, "tests") || Under(rel, "src")) ::
          rel in ManifestOf(fs, root) || rel in declared)
  }

  /** For every admitted ticket an empty comparison means exactly this: every protected file kept its
      digest, and every new file under tests/ or src/ is declared. Accept files are among the
      protected files. */
  lemma ContractMeaning(t: Ticket, fs: Tree, root: Names, after: Manifest)
    requires WellFormed(fs) && Admitted(t, fs, root)
    ensures Intact(ManifestOf(fs, root), after, t.declared) <==> Keeps(fs, root, after, t.declared)
    ensures forall rel | rel in t.accepts && Canonical(rel) :: rel in Protected(fs, root)
  {
    hide Walk, Carveout.Carve;
    ExemptionNeverFires(t, fs, root);
    SnapshotSplit(fs, root);
    forall rel | rel in t.accepts && Canonical(rel) ensures rel in Protected(fs, root) {
      AcceptProtected(fs, root, rel, t.declared);
    }
  }

  /** A comparison against a snapshot says of another tree what it should exactly when the snapshot itself
      keeps that tree's contract and no declared path is protected in it: then every later state that
      compares clean keeps it, and otherwise some state compares clean and does not. */
  lemma SnapshotExactly(before: Manifest, fs: Tree, root: Names, declared: seq<Names>)
    ensures (forall after | Intact(before, after, declared) :: Keeps(fs, root, after, declared)) <==>
            Keeps(fs, root, before, declared) && forall rel | rel in declared :: rel !in Protected(fs, root)
  {
    hide Protected, ManifestOf, DigestOf;
    if forall after | Intact(before, after, declared) :: Keeps(fs, root, after, declared) {
      assert Intact(before, before, declared);
      forall rel | rel in declared
        ensures rel !in Protected(fs, root)
      {
        var without := before - {rel};
        assert Intact(before, without, declared);
        assert Keeps(fs, root, without, declared);
      }
    }
    if Keeps(fs, root, before, declared) && forall rel | rel in declared :: rel !in Protected(fs, root) {
      forall after | Intact(before, after, declared)
        ensures Keeps(fs, root, after, declared)
      {
        Inherits(before, after, fs, root, declared);
      }
    }
  }

  lemma Inherits(before: Manifest, after: Manifest, fs: Tree, root: Names, declared: seq<Names>)
    requires Intact(before, after, declared) && Keeps(fs, root, before, declared)
    requires forall rel | rel in declared :: rel !in Protected(fs, root)
    ensures Keeps(fs, root, after, declared)
  {
    hide ManifestOf, DigestOf, Protected;
    SourcesUnprotected(fs, root);
    forall rel | rel in Protected(fs, root)
      ensures rel in after && after[rel] == DigestOf(fs, root, rel)
    {
      assert !Exempt(rel, declared);
    }
  }

  lemma SourcesUnprotected(fs: Tree, root: Names)
    ensures forall rel | rel in Protected(fs, root) :: !Under(rel, "src")
  {
    SnapshotSplit(fs, root);
  }

  // ---------------------------------------------------------------- two trees, file by file

  /** A file with these bytes, readable. */
  predicate Holds(fs: Tree, root: Names, rel: Names, bytes: Bytes) {
    IsFile(fs, root, rel) && fs[Stat(fs, root, rel).value] == File(bytes, true)
  }

  /** A path below one of the two listed trees: proper names, no cache directory and no linked directory
      on the way. */
  predicate Listed(fs: Tree, root: Names, rel: Names) {
    && |rel| > 1 && rel[0] in {"tests", "src"} && (forall n | n in rel :: Proper(n))
    && "__pycache__" !in rel[1..|rel| - 1] && forall k | 1 < k < |rel| :: !IsLink(fs, root, rel[..k])
  }

  /** A place the contract guards: below tests/, the runner script, and the stack manifests. */
  predicate Guarded(fs: Tree, root: Names, rel: Names) {
    || (Listed(fs, root, rel) && rel[0] == "tests")
    || rel == ["scripts", "run.sh"]
    || (|rel| == 3 && rel[0] == "scripts" && rel[1] == "stacks" && Proper(rel[2]) && EndsWith(rel[2], ".toml"))
  }

  /** Directories reached without a link lie where their names say, below the first. */
  lemma {:induction false} DirChain(fs: Tree, root: Names, rel: Names)
    requires rel != [] && (forall n | n in rel :: Proper(n)) && IsDir(fs, root, rel)
    requires forall k | 1 < k <= |rel| :: !IsLink(fs, root, rel[..k])
    ensures IsDir(fs, root, [rel[0]]) && Stat(fs, root, rel) == Some(Stat(fs, root, [rel[0]]).value + rel[1..])
    decreases |rel|
  {
    hide Stat;
    if |rel| == 1 {
      var base := Stat(fs, root, rel).value;
      assert rel == [rel[0]] && rel[1..] == [] && base + [] == base;
    } else {
      var init, name := rel[..|rel| - 1], rel[|rel| - 1];
      assert rel == init + [name] && name in rel && rel[..|rel|] == rel;
      StatInit(fs, root, init, name);
      assert !IsLink(fs, root, rel[..|rel|]);
      assert forall k | 1 < k <= |init| :: init[..k] == rel[..k];
      DirChain(fs, root, init);
      var base := Stat(fs, root, [rel[0]]).value;
      ChainEnd(base, rel);
    }
  }

  lemma InWalkBelow(fs: Tree, root: Names, rel: Names)
    requires |rel| > 1 && "__pycache__" !in rel[1..|rel| - 1] && IsDir(fs, root, [rel[0]])
    requires var q := Stat(fs, root, [rel[0]]).value + rel[1..]; q in fs && !IsDir(fs, q[..|q| - 1], [q[|q| - 1]])
    ensures rel in WalkFiles(fs, root, rel[0])
  {
    hide Stat;
    var base := Stat(fs, root, [rel[0]]).value;
    Below(base, rel);
    assert CACHE !in (base + rel[1..])[|base|..|base + rel[1..]| - 1];
  }

  lemma Below(base: Names, rel: Names)
    requires |rel| > 1
    ensures var q := base + rel[1..];
            && base <= q && |base| < |q| && q[|base|..] == rel[1..] && [rel[0]] + q[|base|..] == rel
            && q[|base|..|q| - 1] == rel[1..|rel| - 1]
  {
    var q := base + rel[1..];
    assert q[|base|..] == rel[1..] && [rel[0]] + rel[1..] == rel;
    assert q[|base|..|q| - 1] == rel[1..|rel| - 1];
  }

  lemma WalkedBelow(fs: Tree, root: Names, rel: Names)
    requires |rel| > 1 && rel in WalkFiles(fs, root, rel[0])
    ensures IsDir(fs, root, [rel[0]]) && Stat(fs, root, [rel[0]]).value + rel[1..] in fs
    ensures "__pycache__" !in rel[1..|rel| - 1]
  {
    hide Stat;
    var base := Stat(fs, root, [rel[0]]).value;
    var q :| q in fs && |base| < |q| && base <= q && CACHE !in q[|base|..|q| - 1] && rel == [rel[0]] + q[|base|..];
    Behind(base, q, rel);
  }

  lemma Behind(base: Names, q: Names, rel: Names)
    requires |base| < |q| && base <= q && rel != [] && rel == [rel[0]] + q[|base|..]
    ensures base + rel[1..] == q && rel[1..|rel| - 1] == q[|base|..|q| - 1]
  {
    assert rel[1..] == q[|base|..];
    assert rel[1..|rel| - 1] == rel[1..][..|rel| - 2] == q[|base|..][..|q| - |base| - 1];
  }

  /** A listed path that exists is an entry where its names say. */
  lemma FileEntry(fs: Tree, root: Names, rel: Names)
    requires Listed(fs, root, rel) && Exists(fs, root, rel)
    ensures IsDir(fs, root, [rel[0]])
    ensures var q := Stat(fs, root, [rel[0]]).value + rel[1..];
            q in fs && Stat(fs, q[..|q| - 1], [q[|q| - 1]]) == Stat(fs, root, rel)
  {
    hide Stat, IsLink, Exists;
    var init, name := rel[..|rel| - 1], rel[|rel| - 1];
    assert rel == init + [name] && name in rel;
    StatInit(fs, root, init, name);
    assert forall k | 1 < k <= |init| :: init[..k] == rel[..k];
    DirChain(fs, root, init);
    var base, d := Stat(fs, root, [rel[0]]).value, Stat(fs, root, init).value;
    assert d == base + init[1..];
    ChainEnd(base, rel);
    Ends(d, name);
  }

  lemma Ends(d: Names, name: string)
    ensures (d + [name])[..|d + [name]| - 1] == d && (d + [name])[|d + [name]| - 1] == name
  {
  }

  /** A file below tests/ or src/ is in the listing of its tree. */
  lemma FileListed(fs: Tree, root: Names, rel: Names)
    requires WellFormed(fs) && Listed(fs, root, rel) && IsFile(fs, root, rel)
    ensures rel in WalkFiles(fs, root, rel[0])
  {
    hide Stat, IsLink, WellFormed, WalkFiles;
    FileEntry(fs, root, rel);
    var q := Stat(fs, root, [rel[0]]).value + rel[1..];
    NoDir(fs, q[..|q| - 1], [q[|q| - 1]], root, rel);
    InWalkBelow(fs, root, rel);
  }

  lemma ChainEnd(base: Names, rel: Names)
    requires |rel| > 1
    ensures base + rel[..|rel| - 1][1..] + [rel[|rel| - 1]] == base + rel[1..]
  {
    assert rel[..|rel| - 1][1..] + [rel[|rel| - 1]] == rel[1..];
  }

  lemma NoDir(fs: Tree, root: Names, p: Names, root2: Names, file: Names)
    requires WellFormed(fs) && IsFile(fs, root2, file) && Stat(fs, root, p) == Stat(fs, root2, file)
    ensures !IsDir(fs, root, p)
  {
    hide Stat;
  }

  /** A stack manifest is one of its directory's entries. */
  lemma ManifestListed(fs: Tree, root: Names, rel: Names)
    requires |rel| == 3 && rel[0] == "scripts" && rel[1] == "stacks" && Proper(rel[2]) && EndsWith(rel[2], ".toml")
    requires IsFile(fs, root, rel)
    ensures IsDir(fs, root, STACKS) && rel in StackManifests(fs, Stat(fs, root, STACKS).value)
  {
    hide Stat, IsLink, EndsWith;
    assert rel == STACKS + [rel[2]];
    StatInit(fs, root, STACKS, rel[2]);
    var base := Stat(fs, root, STACKS).value;
    var q := base + [rel[2]];
    assert q[|base|..] == [rel[2]] && base <= q && STACKS + q[|base|..] == rel;
  }

  lemma GuardedProtected(fs: Tree, root: Names, rel: Names)
    requires WellFormed(fs) && Guarded(fs, root, rel) && IsFile(fs, root, rel)
    ensures rel in Protected(fs, root)
  {
    hide Stat, IsLink, WalkFiles, StackManifests;
    if Listed(fs, root, rel) && rel[0] == "tests" {
      FileListed(fs, root, rel);
    } else if rel != ["scripts", "run.sh"] {
      ManifestListed(fs, root, rel);
    }
  }

  lemma GuardedNoSource(fs: Tree, root: Names, rel: Names)
    requires Guarded(fs, root, rel)
    ensures !Under(rel, "src")
  {
  }

  lemma DigestHolds(fs: Tree, root: Names, rel: Names, bytes: Bytes)
    ensures Holds(fs, root, rel, bytes) <==> DigestOf(fs, root, rel) == Sha(bytes)
  {
    hide Stat;
  }

  /** Where the comparison is silent, every guarded file that is not declared is a file of the second tree
      with the same bytes. */
  lemma FilesKept(fs: Tree, fs2: Tree, root: Names, declared: seq<Names>, rel: Names, bytes: Bytes)
    requires Intact(ManifestOf(fs, root), ManifestOf(fs2, root), declared) && rel !in declared
    requires WellFormed(fs) && Guarded(fs, root, rel) && Holds(fs, root, rel, bytes)
    ensures Holds(fs2, root, rel, bytes)
  {
    hide Stat, Protected, SrcFiles, DigestOf, Guarded;
    GuardedProtected(fs, root, rel);
    GuardedNoSource(fs, root, rel);
    DigestHolds(fs, root, rel, bytes);
    DigestHolds(fs2, root, rel, bytes);
    assert !Exempt(rel, declared);
    assert rel in ManifestOf(fs, root) && ManifestOf(fs, root)[rel] == DigestOf(fs, root, rel);
    assert rel in ManifestOf(fs2, root) && ManifestOf(fs2, root)[rel] == DigestOf(fs2, root, rel);
  }

  /** And every file of the second tree below tests/ or src/ that is not declared is an entry of the
      first. */
  lemma FilesAdded(fs: Tree, fs2: Tree, root: Names, declared: seq<Names>, rel: Names)
    requires Intact(ManifestOf(fs, root), ManifestOf(fs2, root), declared) && rel !in declared
    requires WellFormed(fs2) && Listed(fs2, root, rel) && IsFile(fs2, root, rel)
    ensures IsDir(fs, root, [rel[0]]) && Stat(fs, root, [rel[0]]).value + rel[1..] in fs
  {
    hide Stat, IsLink, WalkFiles, StackManifests, DigestOf;
    FileListed(fs2, root, rel);
    assert rel in ManifestOf(fs2, root) && (Under(rel, "tests") || Under(rel, "src"));
    InListing(fs, root, rel);
    WalkedBelow(fs, root, rel);
  }

  lemma InListing(fs: Tree, root: Names, rel: Names)
    requires rel in ManifestOf(fs, root) && |rel| > 1 && rel[0] in {"tests", "src"}
    ensures rel in WalkFiles(fs, root, rel[0])
  {
    hide Stat, DigestOf;
    WalkedUnder(fs, root, "tests");
    WalkedUnder(fs, root, "src");
  }

  /** Nothing else is guarded: not what lies in an interpreter's cache, nor any other file. */
  lemma ProtectedOnly(fs: Tree, root: Names, rel: Names)
    requires rel in Protected(fs, root)
    ensures || (|rel| > 1 && rel[0] == "tests" && "__pycache__" !in rel[1..|rel| - 1])
            || (rel == ["scripts", "run.sh"] && IsFile(fs, root, rel))
            || (|rel| == 3 && rel[0] == "scripts" && rel[1] == "stacks" && EndsWith(rel[2], ".toml"))
  {
    hide Stat, WalkFiles;
    if rel in WalkFiles(fs, root, "tests") {
      WalkedUnder(fs, root, "tests");
      WalkedBelow(fs, root, rel);
    }
  }

  /** What an admitted ticket is, condition by condition. */
  lemma AdmittedExactly(t: Ticket, fs: Tree, root: Names)
    requires WellFormed(fs)
    ensures Admitted(t, fs, root) <==>
            && (forall rel | rel in t.declared :: Carveout.Declarable(fs, root, rel))
            && (forall rel | rel in t.accepts ::
                  && Carveout.Declarable(fs, root, rel) && rel[0] == "tests" && IsFile(fs, root, rel)
                  && rel !in t.declared)
            && (forall rel | rel in t.declared && rel !in t.edits :: !Exists(fs, root, rel))
            && (forall rel | rel in t.edits :: rel !in Protected(fs, root))
  {
    hide Carveout.Carve, WellFormed, Exists, IsFile, Protected, IsDir, IsLink;
    forall rel: Names | rel != []
      ensures Carveout.Carve(fs, root, rel).Some? <==> Carveout.Declarable(fs, root, rel)
    {
      Carveout.CarveExactly(fs, root, rel);
    }
  }

  /** No admitted ticket may edit a guarded file. */
  lemma EditsUnguarded(t: Ticket, fs: Tree, root: Names, rel: Names)
    requires WellFormed(fs) && Admitted(t, fs, root) && rel in t.edits
    ensures !(Guarded(fs, root, rel) && IsFile(fs, root, rel))
  {
    hide Carveout.Carve, WellFormed, Exists, IsFile, Protected, Guarded;
    if Guarded(fs, root, rel) && IsFile(fs, root, rel) { GuardedProtected(fs, root, rel); }
  }
}
