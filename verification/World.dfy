/** What lies outside one host run: the live repository, the staged patch file and the cluster. Others
    act between any two steps of the run, by a plan the run knows nothing of. */
module World {
  import opened Text
  import opened FileTree

  type Commit = nat

  /** Git as the run sees it: a commit fixes its tree, and applying a patch is a function. */
  datatype Git = Git(treeOf: Commit -> Tree, apply: (Tree, Bytes) -> Option<Tree>)

  /** One state of the live repository and who made it. */
  datatype Move = Move(byRun: bool, head: Commit, live: Tree)

  type Moves = m: seq<Move> | m != [] witness [Move(false, 0, map[])]

  /** Cluster objects by kind and name; others may own objects with these very names. */
  datatype Obj = TicketMap | TreeMap | RunnerMap | WorkerJob | PatchMap | FreshJob | Other(name: string)

  /** The answers to a create: done, refused by the server, done but the call timed out, timed out and
      not done. */
  datatype Answer = Done | Denied | Lost | Expired

  datatype Creation = Created | Refused | Raised

  /** What the run did to the cluster: a create it tried, the answer and whether the name was taken, and
      an object it deleted. */
  datatype Act = Tried(obj: Obj, answer: Answer, taken: bool) | Removed(obj: Obj)

  /** How a create comes out: a call that times out raises, whatever the server did. */
  function CreateOutcome(answer: Answer, taken: bool): Creation {
    if answer == Lost || answer == Expired then Raised
    else if answer == Denied || taken then Refused else Created
  }

  /** The object is made, reported or not. */
  predicate Makes(answer: Answer, taken: bool) {
    !taken && (answer == Done || answer == Lost)
  }

  /** What others do in one go: leave the repository at a commit and a live tree, change the staged
      file, delete and create cluster objects. */
  datatype Deed = Deed(repo: Option<(Commit, Tree)>, file: Option<Option<Bytes>>, gone: set<Obj>, made: set<Obj>)

  const IDLE := Deed(None, None, {}, {})

  /** Git, and the deeds of others at each occasion they get. */
  datatype Outside = Outside(git: Git, deeds: nat -> Deed)

  /** The outside as it stands: the repository's history, the staged patch file, the cluster, the objects
      this run has made and not deleted, what it did to the cluster, and the occasions others have had. */
  datatype Scene = Scene(moves: Moves, file: Option<Bytes>, objects: set<Obj>, ours: set<Obj>, acts: seq<Act>,
                         clock: nat)

  function Last(moves: Moves): Move {
    moves[|moves| - 1]
  }

  predicate Seen(moves: Moves, head: Commit) {
    exists m | m in moves :: m.head == head
  }

  /** The repository after a deed. HEAD never returns to a commit it has left. */
  function Moved(moves: Moves, repo: Option<(Commit, Tree)>): Moves {
    if repo.None? then moves
    else moves + [Move(false, if Seen(moves, repo.value.0) then Last(moves).head else repo.value.0, repo.value.1)]
  }

  /** Others take their next occasion. They leave this run's objects alone. */
  function Elsewhere(w: Outside, s: Scene): Scene {
    var d := w.deeds(s.clock);
    Scene(Moved(s.moves, d.repo), After(w, s.clock, s.file), s.objects - (d.gone - s.ours) + d.made, s.ours, s.acts,
          s.clock + 1)
  }

  /** What the staged file holds once others had the occasion `t`, when it held `file` before. */
  function After(w: Outside, t: nat, file: Option<Bytes>): Option<Bytes> {
    var d := w.deeds(t);
    if d.file.None? then file else d.file.value
  }

  /** `kubectl create`: it fails when an object of that name exists. */
  function Try(s: Scene, o: Obj, answer: Answer): (r: (Creation, Scene)) {
    var taken := o in s.objects;
    var made := if Makes(answer, taken) then {o} else {};
    (CreateOutcome(answer, taken),
     s.(objects := s.objects + made, ours := s.ours + made, acts := s.acts + [Tried(o, answer, taken)]))
  }

  /** `kubectl delete`: it deletes whatever carries the name. */
  function Remove(s: Scene, o: Obj): Scene {
    s.(objects := s.objects - {o}, ours := s.ours - {o}, acts := s.acts + [Removed(o)])
  }

  /** The run writes the payload's patch bytes to disk. */
  function StagedAs(s: Scene, patch: Bytes): Scene {
    s.(file := Some(patch))
  }

  /** `git apply` of the staged file on the live tree, all or nothing. */
  function Applied(w: Outside, s: Scene): Option<Scene> {
    if s.file.None? then None
    else
      match w.git.apply(Last(s.moves).live, s.file.value)
      case None => None
      case Some(tree) => Some(s.(moves := s.moves + [Move(true, Last(s.moves).head, tree)]))
  }

  class World {
    const out: Outside
    var moves: Moves
    var file: Option<Bytes>
    var objects: set<Obj>
    var ours: set<Obj>
    var acts: seq<Act>
    var clock: nat

    constructor (out: Outside, s: Scene)
      ensures this.out == out && Now() == s
    {
      this.out := out;
      moves, file, objects, ours, acts, clock := s.moves, s.file, s.objects, s.ours, s.acts, s.clock;
    }

    function Now(): Scene
      reads this
    {
      Scene(moves, file, objects, ours, acts, clock)
    }

    method OthersAct()
      modifies this
      ensures Now() == Elsewhere(out, old(Now()))
    {
      var d := out.deeds(clock);
      moves := Moved(moves, d.repo);
      if d.file.Some? { file := d.file.value; }
      objects := objects - (d.gone - ours) + d.made;
      clock := clock + 1;
    }

    method StagePatch(patch: Bytes)
      modifies `file
      ensures Now() == StagedAs(old(Now()), patch)
    {
      file := Some(patch);
    }

    method Create(o: Obj, answer: Answer) returns (r: Creation)
      modifies `objects, `ours, `acts
      ensures (r, Now()) == Try(old(Now()), o, answer)
      ensures r == Created <==> o !in old(objects) && answer == Done
      ensures r == Created ==> o in ours
      ensures o in old(objects) ==> objects == old(objects) && ours == old(ours)
    {
      var taken := o in objects;
      acts := acts + [Tried(o, answer, taken)];
      assert objects + {} == objects && ours + {} == ours;
      if !taken && (answer == Done || answer == Lost) {
        objects, ours := objects + {o}, ours + {o};
      }
      match answer {
        case Denied => r := Refused;
        case Done => r := if taken then Refused else Created;
        case _ => r := Raised;
      }
    }

    method Delete(o: Obj)
      modifies `objects, `ours, `acts
      ensures Now() == Remove(old(Now()), o)
    {
      objects, ours, acts := objects - {o}, ours - {o}, acts + [Removed(o)];
    }

    method GitApply(runs: bool) returns (ok: bool)
      modifies `moves
      ensures var applied := if runs then Applied(out, old(Now())) else None;
              ok == applied.Some? && Now() == if ok then applied.value else old(Now())
    {
      var tree := if runs && file.Some? then out.git.apply(Last(moves).live, file.value) else None;
      ok := tree.Some?;
      if ok {
        moves := moves + [Move(true, Last(moves).head, tree.value)];
      }
    }
  }

  // ---------------------------------------------------------------- what a run keeps until it lands

  /** HEAD never returns to a commit it has left. */
  ghost predicate Forward(moves: seq<Move>) {
    forall i, j, k | 0 <= i <= j <= k < |moves| && moves[i].head == moves[k].head :: moves[j].head == moves[i].head
  }

  /** `now` continues `earlier` with moves of others only. */
  ghost predicate OthersMoved(earlier: seq<Move>, now: seq<Move>) {
    earlier <= now && forall i | |earlier| <= i < |now| :: !now[i].byRun
  }

  /** The objects made and not deleted. */
  ghost function Standing(acts: seq<Act>): set<Obj> {
    if acts == [] then {}
    else
      var rest, last := Standing(acts[..|acts| - 1]), acts[|acts| - 1];
      if last.Removed? then rest - {last.obj} else if Makes(last.answer, last.taken) then rest + {last.obj} else rest
  }

  ghost predicate NeverDeleted(w: Outside, o: Obj) {
    forall t :: o !in w.deeds(t).gone
  }

  ghost predicate Untouched(w: Outside, o: Obj) {
    NeverDeleted(w, o) && forall t :: o !in w.deeds(t).made
  }

  /** One object under the run: what others keep stays and never counts as this run's; what others
      never touch is there exactly if it was there before, or this run made it and it stands. */
  ghost predicate Spared(w: Outside, first: Scene, s: Scene, o: Obj) {
    && (o in first.objects && NeverDeleted(w, o) ==> o in s.objects && o !in s.ours)
    && (Untouched(w, o) ==> (o in s.objects <==> o in first.objects || o in s.ours))
  }

  /** A run begins: nothing of its own in the cluster. */
  ghost predicate Fresh(s: Scene) {
    Forward(s.moves) && s.ours == {} && s.acts == []
  }

  /** What every step of a run keeps of the cluster. */
  ghost predicate Framed(w: Outside, first: Scene, s: Scene) {
    s.ours == Standing(s.acts) && s.ours <= s.objects && forall o :: Spared(w, first, s, o)
  }

  /** What every step keeps from the beginning of the run until it lands its patch. */
  ghost predicate Sound(w: Outside, first: Scene, s: Scene) {
    Forward(s.moves) && OthersMoved(first.moves, s.moves) && Framed(w, first, s)
  }

  lemma BeginsSound(w: Outside, s: Scene)
    requires Fresh(s)
    ensures Sound(w, s, s)
  {
  }

  lemma MovedForward(moves: Moves, repo: Option<(Commit, Tree)>)
    requires Forward(moves)
    ensures Forward(Moved(moves, repo))
  {
    if repo.Some? {
      var now := Moved(moves, repo);
      forall i, j, k | 0 <= i <= j <= k < |now| && now[i].head == now[k].head
        ensures now[j].head == now[i].head
      {
        if i < k == |moves| {
          assert now[i] == moves[i] && moves[i] in moves;
          assert now[k].head == Last(moves).head;
        }
      }
    }
  }

  lemma ElsewhereFramed(w: Outside, first: Scene, s: Scene)
    requires Framed(w, first, s)
    ensures Framed(w, first, Elsewhere(w, s))
  {
    hide Standing;
    var t := Elsewhere(w, s);
    forall o
      ensures Spared(w, first, t, o)
    {
      assert Spared(w, first, s, o);
    }
  }

  lemma ElsewhereSound(w: Outside, first: Scene, s: Scene)
    requires Sound(w, first, s)
    ensures Sound(w, first, Elsewhere(w, s))
  {
    hide Forward, Framed;
    MovedForward(s.moves, w.deeds(s.clock).repo);
    ElsewhereFramed(w, first, s);
  }

  lemma StandingSnoc(acts: seq<Act>, a: Act)
    ensures Standing(acts + [a]) == if a.Removed? then Standing(acts) - {a.obj}
                                    else if Makes(a.answer, a.taken) then Standing(acts) + {a.obj} else Standing(acts)
  {
    assert (acts + [a])[..|acts|] == acts;
  }

  lemma TrySound(w: Outside, first: Scene, s: Scene, o: Obj, answer: Answer)
    requires Sound(w, first, s)
    ensures Sound(w, first, Try(s, o, answer).1)
  {
    hide Forward, NeverDeleted, OthersMoved, Standing;
    var t := Try(s, o, answer).1;
    StandingSnoc(s.acts, t.acts[|s.acts|]);
    forall x
      ensures Spared(w, first, t, x)
    {
      assert Spared(w, first, s, x);
    }
  }

  lemma RemoveFramed(w: Outside, first: Scene, s: Scene, o: Obj)
    requires Framed(w, first, s) && o in s.ours
    ensures Framed(w, first, Remove(s, o))
  {
    hide NeverDeleted, Standing;
    var t := Remove(s, o);
    StandingSnoc(s.acts, Removed(o));
    forall x
      ensures Spared(w, first, t, x)
    {
      assert Spared(w, first, s, x);
    }
  }

  lemma StageSound(w: Outside, first: Scene, s: Scene, patch: Bytes)
    requires Sound(w, first, s)
    ensures Sound(w, first, StagedAs(s, patch))
  {
    FrameOnly(w, first, s, StagedAs(s, patch));
  }

  /** The staged file and the repository are no part of the frame. */
  lemma FrameOnly(w: Outside, first: Scene, s: Scene, t: Scene)
    requires Framed(w, first, s) && t.objects == s.objects && t.ours == s.ours && t.acts == s.acts
    ensures Framed(w, first, t)
  {
    hide NeverDeleted, Untouched, Standing;
    forall o
      ensures Spared(w, first, t, o)
    {
      assert Spared(w, first, s, o);
    }
  }
}
