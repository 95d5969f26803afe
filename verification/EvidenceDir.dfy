/** The evidence directory of one label, one file operation at a time: the `.running` marker and
    summary.json (launcher/cli.py:46-62, 86-99, 149-174; launcher/summary.py:97-160, 422-433). */
module EvidenceDir {
  import opened Verdicts
  import opened Text

  datatype FileOp =
    | TruncateMarker            // open(marker, "w")
    | WriteMarker               // its text reaches the file
    | RemoveMarker
    | TruncateSummary
    | WriteSummary(summary: Summary)

  datatype MarkerFile = NoMarker | EmptyMarker | FullMarker
  datatype SummaryFile = NoSummary | PartialSummary | WholeSummary(summary: Summary)

  datatype Dir = Dir(marker: MarkerFile, summary: SummaryFile)

  function Step(d: Dir, op: FileOp): Dir {
    match op
    case TruncateMarker => d.(marker := EmptyMarker)
    case WriteMarker => d.(marker := FullMarker)
    case RemoveMarker => d.(marker := NoMarker)
    case TruncateSummary => d.(summary := PartialSummary)
    case WriteSummary(s) => d.(summary := WholeSummary(s))
  }

  /** The directory after the operations, in order. */
  function Replay(d: Dir, ops: seq<FileOp>): Dir {
    if ops == [] then d else Step(Replay(d, ops[..|ops| - 1]), ops[|ops| - 1])
  }

  lemma ReplaySnoc(d: Dir, ops: seq<FileOp>, op: FileOp)
    ensures Replay(d, ops + [op]) == Step(Replay(d, ops), op)
  {
    assert (ops + [op])[..|ops|] == ops;
  }

  predicate SummaryOp(op: FileOp) {
    op.TruncateSummary? || op.WriteSummary?
  }

  /** Summary operations only, none or ending in a complete summary. */
  ghost predicate Writes(ops: seq<FileOp>) {
    (forall op | op in ops :: SummaryOp(op)) && (ops == [] || ops[|ops| - 1].WriteSummary?)
  }

  const OPENING: seq<FileOp> := [TruncateMarker, WriteMarker]

  /** A finished run: marker written, summaries written, marker removed as the very last operation. */
  ghost predicate Finished(ops: seq<FileOp>) {
    exists body :: Writes(body) && ops == OPENING + body + [RemoveMarker]
  }

  /** A run that stopped with its marker in place. */
  ghost predicate Unfinished(ops: seq<FileOp>) {
    exists body :: Writes(body) && ops == OPENING + body
  }

  /** What a refused launch does: a marker of a process that is not alive goes, and the refusal is
      written where no summary stands. */
  function AbortOps(d: Dir, alive: bool, refusal: Summary): seq<FileOp> {
    (if d.marker == NoMarker || (d.marker == FullMarker && alive) then [] else [RemoveMarker])
    + (if d.summary == NoSummary then Puts(refusal) else [])
  }

  /** Writing a summary truncates the file first. */
  function Puts(s: Summary): seq<FileOp> {
    [TruncateSummary, WriteSummary(s)]
  }

  /** `_publish_evidence`: the worker's file is copied, and rewritten when the host overrules it. */
  function PublishOps(worker: Summary, containerRc: int, violated: bool, freshRc: Option<int>): seq<FileOp> {
    Puts(worker)
    + if violated || (freshRc.Some? && freshRc.value != 0)
      then Puts(Published(worker, containerRc, violated, freshRc)) else []
  }

  class Evidence {
    var ops: seq<FileOp>
    /** What an earlier run of the label left behind. */
    const before: Dir

    function State(): Dir
      reads this
    {
      Replay(before, ops)
    }

    method PutMarker()
      modifies `ops
      ensures ops == old(ops) + OPENING
    {
      ops := ops + [TruncateMarker];
      ops := ops + [WriteMarker];
    }

    method DropMarker()
      modifies `ops
      ensures ops == old(ops) + [RemoveMarker]
    {
      ops := ops + [RemoveMarker];
    }

    method PutSummary(s: Summary)
      modifies `ops
      ensures ops == old(ops) + Puts(s)
    {
      ops := ops + [TruncateSummary];
      ops := ops + [WriteSummary(s)];
    }

    method Publish(worker: Summary, containerRc: int, violated: bool, freshRc: Option<int>)
      modifies `ops
      ensures ops == old(ops) + PublishOps(worker, containerRc, violated, freshRc)
      ensures [TruncateSummary, WriteSummary(worker)] <= ops[|old(ops)|..] && |ops| <= |old(ops)| + 4
      ensures State().summary == WholeSummary(Published(worker, containerRc, violated, freshRc))
      ensures State().marker == old(State().marker)
    {
      PutsLast(before, ops, worker);
      PutSummary(worker);
      if violated || (freshRc.Some? && freshRc.value != 0) {
        PutsLast(before, ops, Published(worker, containerRc, violated, freshRc));
        PutSummary(Published(worker, containerRc, violated, freshRc));
      }
    }
  }

  /** After a summary was written last, it is the one that stands. */
  lemma PutsLast(d: Dir, ops: seq<FileOp>, s: Summary)
    ensures Replay(d, ops + Puts(s)).summary == WholeSummary(s)
    ensures Replay(d, ops + Puts(s)).marker == Replay(d, ops).marker
  {
    assert ops + Puts(s) == ops + [TruncateSummary] + [WriteSummary(s)];
    ReplaySnoc(d, ops, TruncateSummary);
    ReplaySnoc(d, ops + [TruncateSummary], WriteSummary(s));
  }

  /** What a refused launch leaves. */
  lemma AbortLeaves(d: Dir, alive: bool, refusal: Summary)
    ensures var after := Replay(d, AbortOps(d, alive, refusal));
            && after.summary == (if d.summary == NoSummary then WholeSummary(refusal) else d.summary)
            && after.marker == if d.marker == FullMarker && alive then FullMarker else NoMarker
  {
    var gone := if d.marker == NoMarker || (d.marker == FullMarker && alive) then [] else [RemoveMarker];
    ReplaySnoc(d, [], RemoveMarker);
    PutsLast(d, gone, refusal);
  }

  /** What a launch leaves that is refused once its own marker is written. */
  lemma AbortOpened(d: Dir, refusal: Summary)
    ensures Replay(d, OPENING + AbortOps(Dir(FullMarker, d.summary), true, refusal))
            == Dir(FullMarker, if d.summary == NoSummary then WholeSummary(refusal) else d.summary)
  {
    assert OPENING == [] + [TruncateMarker] + [WriteMarker];
    ReplaySnoc(d, [], TruncateMarker);
    ReplaySnoc(d, [] + [TruncateMarker], WriteMarker);
    PutsLast(d, OPENING, refusal);
    var tail := AbortOps(Dir(FullMarker, d.summary), true, refusal);
    assert tail == if d.summary == NoSummary then Puts(refusal) else [];
    assert OPENING + [] == OPENING;
  }
}
