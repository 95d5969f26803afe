/** A file system with symbolic links, and the `os.path` questions the ticket gate asks of it. */
module FileTree {
  import opened Text

  type Names = seq<string>

  datatype Node = Dir | File(content: Bytes, readable: bool) | Link(target: string)

  /** Entries by absolute component list; the root directory `[]` is implicit. */
  type Tree = map<Names, Node>

  predicate DirAt(fs: Tree, p: Names) {
    p == [] || (p in fs && fs[p].Dir?)
  }

  /** The kernel follows this many links before it answers ELOOP. */
  const MAX_LINKS := 40

  predicate Skipped(name: string) {
    name == "" || name == "."
  }

  /** Resolve `todo` below the resolved `done`. With `strict` (a system call) every step needs a
      directory; without it (`os.path.realpath`) missing parts are taken as they are written. */
  function Walk(fs: Tree, done: Names, todo: Names, links: nat, strict: bool): Option<Names>
    decreases links, |todo|
  {
    if todo == [] then Some(done)
    else if strict && !DirAt(fs, done) then None
    else
      var name, rest := todo[0], todo[1..];
      if Skipped(name) then Walk(fs, done, rest, links, strict)
      else if name == ".." then Walk(fs, if done == [] then [] else done[..|done| - 1], rest, links, strict)
      else
        var p := done + [name];
        if p in fs && fs[p].Link? then
          if links == 0 then None
          else
            var target := fs[p].target;
            Walk(fs, if StartsWith(target, "/") then [] else done, Split(target, '/') + rest, links - 1, strict)
        else Walk(fs, p, rest, links, strict)
  }

  /** `os.stat` of a path below `root`, which is itself resolved. */
  function Stat(fs: Tree, root: Names, p: Names): Option<Names> {
    Walk(fs, root, p, MAX_LINKS, true)
  }

  predicate Exists(fs: Tree, root: Names, p: Names) {
    Stat(fs, root, p).Some? && (Stat(fs, root, p).value == [] || Stat(fs, root, p).value in fs)
  }

  predicate IsDir(fs: Tree, root: Names, p: Names) {
    Stat(fs, root, p).Some? && DirAt(fs, Stat(fs, root, p).value)
  }

  predicate IsFile(fs: Tree, root: Names, p: Names) {
    Stat(fs, root, p).Some? && Stat(fs, root, p).value in fs && fs[Stat(fs, root, p).value].File?
  }

  predicate LinkAt(fs: Tree, p: Names) {
    p in fs && fs[p].Link?
  }

  /** `os.path.islink`: the last component is not followed. A path that ends in a skipped component
      or `..` names a directory, never a link. */
  predicate IsLink(fs: Tree, root: Names, p: Names) {
    && p != [] && !Skipped(p[|p| - 1]) && p[|p| - 1] != ".."
    && Stat(fs, root, p[..|p| - 1]).Some?
    && LinkAt(fs, Stat(fs, root, p[..|p| - 1]).value + [p[|p| - 1]])
  }

  /** `os.path.realpath`. The gate asks it only of paths without link components, so the answer for
      a link loop, given here as None, is never used. */
  function RealPath(fs: Tree, root: Names, p: Names): Option<Names> {
    Walk(fs, root, p, MAX_LINKS, false)
  }

  predicate Proper(name: string) {
    !Skipped(name) && name != ".."
  }

  /** Every entry has proper names and lies in a directory. */
  ghost predicate WellFormed(fs: Tree) {
    forall p | p in fs :: p != [] && DirAt(fs, p[..|p| - 1]) && forall n | n in p :: Proper(n)
  }

  /** The path without its skipped components. */
  function Normal(p: Names): (r: Names)
    ensures forall n | n in r :: n in p && !Skipped(n)
  {
    if p == [] then [] else (if Skipped(p[0]) then [] else [p[0]]) + Normal(p[1..])
  }

  /** No part of the path below `done` is a link and no part climbs. */
  ghost predicate Straight(fs: Tree, done: Names, todo: Names)
    decreases |todo|
  {
    todo == [] ||
    (if Skipped(todo[0]) then Straight(fs, done, todo[1..])
     else todo[0] != ".." && !LinkAt(fs, done + [todo[0]]) && Straight(fs, done + [todo[0]], todo[1..]))
  }

  lemma NormalFirst(done: Names, p: Names)
    requires p != []
    ensures Skipped(p[0]) ==> done + Normal(p) == done + Normal(p[1..])
    ensures !Skipped(p[0]) ==> done + Normal(p) == done + [p[0]] + Normal(p[1..])
  {
    var rest := Normal(p[1..]);
    if Skipped(p[0]) {
      assert Normal(p) == [] + rest == rest;
    } else {
      assert done + ([p[0]] + rest) == done + [p[0]] + rest;
    }
  }

  /** `realpath` of a straight path just drops its skipped components. */
  lemma {:induction false} StraightReal(fs: Tree, done: Names, todo: Names, links: nat)
    requires Straight(fs, done, todo)
    ensures Walk(fs, done, todo, links, false) == Some(done + Normal(todo))
    decreases |todo|
  {
    if todo == [] {
      assert done + Normal(todo) == done;
    } else {
      NormalFirst(done, todo);
      StraightReal(fs, if Skipped(todo[0]) then done else done + [todo[0]], todo[1..], links);
    }
  }

  /** A system call resolves a straight path the same way as long as every step stands on a directory. */
  lemma {:induction false} StraightStat(fs: Tree, done: Names, todo: Names, links: nat)
    requires WellFormed(fs) && Straight(fs, done, todo) && DirAt(fs, done + Normal(todo))
    ensures Walk(fs, done, todo, links, true) == Some(done + Normal(todo))
    decreases |todo|
  {
    if todo == [] {
      assert done + Normal(todo) == done;
    } else {
      DirsBelow(fs, done + Normal(todo), |done|);
      assert (done + Normal(todo))[..|done|] == done;
      NormalFirst(done, todo);
      StraightStat(fs, if Skipped(todo[0]) then done else done + [todo[0]], todo[1..], links);
    }
  }

  /** Every ancestor of a directory is a directory. */
  lemma {:induction false} DirsBelow(fs: Tree, p: Names, k: nat)
    requires WellFormed(fs) && DirAt(fs, p) && k <= |p|
    ensures DirAt(fs, p[..k])
    decreases |p|
  {
    if k < |p| {
      DirsBelow(fs, p[..|p| - 1], k);
      assert p[..|p| - 1][..k] == p[..k];
    } else {
      assert p[..k] == p;
    }
  }

  lemma {:induction false} StraightSnoc(fs: Tree, done: Names, init: Names, name: string)
    requires Straight(fs, done, init)
    requires Skipped(name) || (name != ".." && !LinkAt(fs, done + Normal(init) + [name]))
    ensures Straight(fs, done, init + [name])
    decreases |init|
  {
    var p := init + [name];
    if init == [] {
      assert p[1..] == [] && done + Normal(init) == done;
    } else {
      assert p[0] == init[0] && p[1..] == init[1..] + [name];
      NormalFirst(done, init);
      StraightSnoc(fs, if Skipped(init[0]) then done else done + [init[0]], init[1..], name);
    }
  }

  /** If no prefix of a path that never climbs is a link, the path is straight. */
  lemma {:induction false} NoLinkPrefix(fs: Tree, root: Names, p: Names)
    requires WellFormed(fs) && ".." !in p
    requires forall k | 0 < k <= |p| :: !IsLink(fs, root, p[..k])
    ensures Straight(fs, root, p)
    decreases |p|
  {
    hide Walk;
    if p != [] {
      var init, name := p[..|p| - 1], p[|p| - 1];
      assert p == init + [name] && p[..|p|] == p;
      assert forall k | 0 < k <= |init| :: init[..k] == p[..k];
      NoLinkPrefix(fs, root, init);
      var q := root + Normal(init) + [name];
      if !Skipped(name) && LinkAt(fs, q) {
        assert q[..|q| - 1] == root + Normal(init);
        StraightStat(fs, root, init, MAX_LINKS);
        assert false;
      }
      StraightSnoc(fs, root, init, name);
    }
  }

  lemma {:induction false} ProperIsNormal(p: Names)
    requires forall n | n in p :: Proper(n)
    ensures Normal(p) == p
  {
    if p != [] {
      assert Proper(p[0]);
      ProperIsNormal(p[1..]);
      assert p == [p[0]] + p[1..];
    }
  }

  /** A straight path of proper names that is an entry resolves to that entry. */
  lemma StepNowhere(fs: Tree, done: Names, links: nat)
    ensures Walk(fs, done, [], links, true) == Some(done)
  {
  }

  lemma EntryIsProper(fs: Tree, entry: Names)
    requires WellFormed(fs) && entry in fs
    ensures entry != [] && DirAt(fs, entry[..|entry| - 1]) && forall n | n in entry :: Proper(n)
  {
  }

  lemma StepInto(fs: Tree, done: Names, todo: Names, links: nat)
    requires todo != [] && DirAt(fs, done) && Proper(todo[0]) && !LinkAt(fs, done + [todo[0]])
    ensures Walk(fs, done, todo, links, true) == Walk(fs, done + [todo[0]], todo[1..], links, true)
  {
  }

  lemma {:induction false} EntryStat(fs: Tree, done: Names, todo: Names, links: nat)
    requires WellFormed(fs) && Straight(fs, done, todo) && done + todo in fs
    ensures Walk(fs, done, todo, links, true) == Some(done + todo)
    decreases |todo|
  {
    hide Walk, WellFormed;
    StepNowhere(fs, done, links);
    if todo == [] {
      assert done + todo == done;
    } else {
      EntryIsProper(fs, done + todo);
      var entry, name := done + todo, todo[0];
      assert name == entry[|done|] && name in entry;
      DirsBelow(fs, entry[..|entry| - 1], |done|);
      assert entry[..|entry| - 1][..|done|] == done;
      assert done + [name] + todo[1..] == entry;
      StepInto(fs, done, todo, links);
      EntryStat(fs, done + [name], todo[1..], links);
    }
  }

  /** If a system call resolves a straight path at all, it resolves to the path itself. */
  lemma {:induction false} StrictAgrees(fs: Tree, done: Names, todo: Names, links: nat)
    requires Straight(fs, done, todo) && Walk(fs, done, todo, links, true).Some?
    ensures Walk(fs, done, todo, links, true) == Some(done + Normal(todo))
    decreases |todo|
  {
    if todo == [] {
      assert done + Normal(todo) == done;
    } else {
      NormalFirst(done, todo);
      StrictAgrees(fs, if Skipped(todo[0]) then done else done + [todo[0]], todo[1..], links);
    }
  }

  // ---------------------------------------------------------------- one step of a resolution at a time

  lemma Follow(fs: Tree, done: Names, name: string, rest: Names, links: nat)
    requires DirAt(fs, done) && Proper(name)
    ensures var p := done + [name];
            Walk(fs, done, [name] + rest, links, true)
            == if !LinkAt(fs, p) then Walk(fs, p, rest, links, true)
               else if links == 0 then None
               else
                 Walk(fs, if StartsWith(fs[p].target, "/") then [] else done,
                      Split(fs[p].target, '/') + rest, links - 1, true)
  {
    assert ([name] + rest)[1..] == rest;
  }

  /** A resolution passes through the resolution of every first part, with some links left. */
  lemma {:induction false} WalkSplit(fs: Tree, done: Names, todo: Names, more: Names, links: nat) returns (left: nat)
    requires Walk(fs, done, todo + more, links, true).Some?
    ensures Walk(fs, done, todo, links, true).Some? && left <= links
    ensures Walk(fs, Walk(fs, done, todo, links, true).value, more, left, true)
            == Walk(fs, done, todo + more, links, true)
    decreases links, |todo|
  {
    left := links;
    if todo == [] {
      assert todo + more == more;
    } else {
      var name, rest := todo[0], todo[1..];
      assert (todo + more)[0] == name && (todo + more)[1..] == rest + more;
      var p := done + [name];
      if Skipped(name) {
        left := WalkSplit(fs, done, rest, more, links);
      } else if name == ".." {
        left := WalkSplit(fs, if done == [] then [] else done[..|done| - 1], rest, more, links);
      } else if LinkAt(fs, p) {
        var target := fs[p].target;
        assert Split(target, '/') + (rest + more) == Split(target, '/') + rest + more;
        left := WalkSplit(fs, if StartsWith(target, "/") then [] else done, Split(target, '/') + rest, more, links - 1);
      } else {
        left := WalkSplit(fs, p, rest, more, links);
      }
    }
  }

  /** More links to follow change nothing in a resolution that ends. */
  lemma {:induction false} WalkMore(fs: Tree, done: Names, todo: Names, links: nat, more: nat)
    requires Walk(fs, done, todo, links, true).Some? && links <= more
    ensures Walk(fs, done, todo, more, true) == Walk(fs, done, todo, links, true)
    decreases links, |todo|
  {
    if todo != [] {
      var name, rest := todo[0], todo[1..];
      var p := done + [name];
      if Skipped(name) {
        WalkMore(fs, done, rest, links, more);
      } else if name == ".." {
        WalkMore(fs, if done == [] then [] else done[..|done| - 1], rest, links, more);
      } else if LinkAt(fs, p) {
        var target := fs[p].target;
        WalkMore(fs, if StartsWith(target, "/") then [] else done, Split(target, '/') + rest, links - 1, more - 1);
      } else {
        WalkMore(fs, p, rest, links, more);
      }
    }
  }

  /** A path that resolves lies, but for its last name, in a directory; the name is an entry there if the
      path is an entry. */
  lemma StatInit(fs: Tree, root: Names, init: Names, name: string)
    requires Proper(name) && Exists(fs, root, init + [name])
    ensures IsDir(fs, root, init)
    ensures var q := Stat(fs, root, init).value + [name];
            && q in fs && Stat(fs, q[..|q| - 1], [name]) == Stat(fs, root, init + [name])
            && (!LinkAt(fs, q) ==> Stat(fs, root, init + [name]) == Some(q))
  {
    hide Walk;
    var left := WalkSplit(fs, root, init, [name], MAX_LINKS);
    var d := Stat(fs, root, init).value;
    var q := d + [name];
    assert q[..|q| - 1] == d;
    StandsOnDir(fs, d, name, left);
    WalkMore(fs, d, [name], left, MAX_LINKS);
    Follow(fs, d, name, [], left);
    assert [name] + [] == [name];
    StepNowhere(fs, q, left);
  }

  lemma StandsOnDir(fs: Tree, done: Names, name: string, links: nat)
    requires Walk(fs, done, [name], links, true).Some?
    ensures DirAt(fs, done)
  {
  }
}
