/** The counters of one turn over the message stream (launcher/session.py:310-446). */
module Turn {
  import opened Text

  datatype Tokens = Tokens(input: nat, output: nat, read: nat, create: nat)

  const NO_TOKENS := Tokens(0, 0, 0, 0)

  /** What a Write or Edit call does to the tests, as the directory tells at that moment. */
  datatype Write = TestEdit | TestNew | OtherWrite

  /** A content block: a Write or Edit call, a Bash call with its id and the test command it carries,
      or any other block with the tool call it replies to. */
  datatype Block =
    | WriteCall(kind: Write)
    | BashCall(id: Option<string>, test: Option<string>)
    | Reply(id: Option<string>, isError: bool, text: string)

  /** A message, and whether the loop-guard marker is readable after it. */
  datatype Message = Message(blocks: seq<Block>, usage: Option<Tokens>, result: bool, error: Option<string>, trap: bool)

  datatype TurnResult = TurnResult(usage: Tokens, writes: nat, error: Option<string>, trap: bool,
                                   bashTotal: nat, bashOk: nat, edits: nat, news: nat)

  /** Does a test command's reply show a green suite. */
  type Judge = (string, bool, string) -> bool

  /** The running counters; `pending` are the Bash ids without a reply, `tests` the commands awaited.
      `failed` and `lost` count what the source does not: replies that report an error, and Bash calls
      without an id or repeating a pending one. */
  datatype Counts = Counts(writes: nat, total: nat, ok: nat, pending: set<string>, tests: map<string, string>,
                           edits: nat, news: nat, green: bool, failed: nat, lost: nat)

  ghost function Start(green: bool): Counts {
    Counts(0, 0, 0, {}, map[], 0, 0, green, 0, 0)
  }

  ghost function AfterBlock(c: Counts, b: Block, judge: Judge): Counts {
    match b
    case WriteCall(kind) =>
      c.(writes := c.writes + 1,
         edits := if c.green && kind.TestEdit? then c.edits + 1 else c.edits,
         news := if c.green && kind.TestNew? then c.news + 1 else c.news)
    case BashCall(id, test) =>
      if id.None? then c.(total := c.total + 1, lost := c.lost + 1)
      else c.(total := c.total + 1, pending := c.pending + {id.value},
              lost := if id.value in c.pending then c.lost + 1 else c.lost,
              tests := if test.Some? then c.tests[id.value := test.value] else c.tests)
    case Reply(id, isError, text) =>
      if id.None? then c
      else
        c.(pending := c.pending - {id.value},
           ok := if id.value in c.pending && !isError then c.ok + 1 else c.ok,
           failed := if id.value in c.pending && isError then c.failed + 1 else c.failed,
           green := c.green || (id.value in c.tests && judge(c.tests[id.value], isError, text)),
           tests := c.tests - {id.value})
  }

  ghost function After(c: Counts, bs: seq<Block>, judge: Judge): Counts {
    if bs == [] then c else AfterBlock(After(c, bs[..|bs| - 1], judge), bs[|bs| - 1], judge)
  }

  /** All blocks of the messages, in order. */
  function Blocks(ms: seq<Message>): seq<Block> {
    if ms == [] then [] else Blocks(ms[..|ms| - 1]) + ms[|ms| - 1].blocks
  }

  lemma {:induction false} AfterConcat(c: Counts, a: seq<Block>, b: seq<Block>, judge: Judge)
    ensures After(c, a + b, judge) == After(After(c, a, judge), b, judge)
  {
    if b == [] {
      assert a + b == a;
    } else {
      assert (a + b)[..|a + b| - 1] == a + b[..|b| - 1];
      AfterConcat(c, a, b[..|b| - 1], judge);
    }
  }

  lemma AfterNone(c: Counts, judge: Judge)
    ensures After(c, [], judge) == c
  {
  }

  lemma AfterSnoc(c: Counts, bs: seq<Block>, k: nat, judge: Judge)
    requires k < |bs|
    ensures After(c, bs[..k + 1], judge) == AfterBlock(After(c, bs[..k], judge), bs[k], judge)
  {
    assert bs[..k + 1][..k] == bs[..k];
  }

  /** Every Bash call is answered, waiting, failed or lost: so the successes and the pending ids never
      exceed the calls, and reach them when no reply failed and no id was missing or repeated. */
  lemma {:induction false} BashConservation(green: bool, bs: seq<Block>, judge: Judge)
    ensures var c := After(Start(green), bs, judge);
            c.ok + c.failed + |c.pending| + c.lost == c.total
  {
    if bs != [] {
      BashConservation(green, bs[..|bs| - 1], judge);
      BlockConserves(After(Start(green), bs[..|bs| - 1], judge), bs[|bs| - 1], judge);
    }
  }

  lemma BlockConserves(c: Counts, b: Block, judge: Judge)
    requires c.ok + c.failed + |c.pending| + c.lost == c.total
    ensures var d := AfterBlock(c, b, judge); d.ok + d.failed + |d.pending| + d.lost == d.total
  {
    if !b.WriteCall? && b.id.Some? && b.id.value in c.pending {
      assert c.pending + {b.id.value} == c.pending;
      assert |c.pending - {b.id.value}| == |c.pending| - 1;
    }
  }

  /** Before the first observed green no write counts as test fitting. */
  lemma {:induction false} NoFitBeforeGreen(bs: seq<Block>, judge: Judge)
    ensures var c := After(Start(false), bs, judge); !c.green ==> c.edits == 0 && c.news == 0
    ensures var c := After(Start(false), bs, judge); c.edits + c.news <= c.writes
  {
    if bs != [] {
      NoFitBeforeGreen(bs[..|bs| - 1], judge);
    }
  }

  // ---------------------------------------------------------------- the counters, by positions

  predicate Calls(b: Block, id: string) {
    b.BashCall? && b.id == Some(id)
  }

  predicate Answers(b: Block, id: string) {
    b.Reply? && b.id == Some(id)
  }

  /** At position `k` a Bash call with this id has been made and not answered. */
  ghost predicate Awaited(bs: seq<Block>, k: nat, id: string)
    requires k <= |bs|
  {
    exists j | 0 <= j < k :: Calls(bs[j], id) && forall m | j < m < k :: !Answers(bs[m], id)
  }

  /** At position `k` the latest test command awaited under this id is `cmd`. */
  ghost predicate Tests(bs: seq<Block>, k: nat, id: string, cmd: string)
    requires k <= |bs|
  {
    exists j | 0 <= j < k ::
      TestCall(bs[j], id, cmd) && forall m | j < m < k :: !Answers(bs[m], id) && !AnyTest(bs[m], id)
  }

  predicate TestCall(b: Block, id: string, cmd: string) {
    Calls(b, id) && b.test == Some(cmd)
  }

  predicate AnyTest(b: Block, id: string) {
    Calls(b, id) && b.test.Some?
  }

  /** A test command's reply at position `j` shows a green suite. */
  ghost predicate ShowsGreen(bs: seq<Block>, j: nat, judge: Judge)
    requires j < |bs|
  {
    bs[j].Reply? && bs[j].id.Some?
    && exists cmd :: Tests(bs, j, bs[j].id.value, cmd) && judge(cmd, bs[j].isError, bs[j].text)
  }

  /** Green at position `k`: from before, or shown by then. */
  ghost predicate GreenAt(green: bool, bs: seq<Block>, k: nat, judge: Judge)
    requires k <= |bs|
  {
    green || exists j: nat | j < k :: ShowsGreen(bs, j, judge)
  }

  /** A reply without error to a Bash call that was waiting for it. */
  ghost predicate GoodReply(bs: seq<Block>, k: nat)
    requires k < |bs|
  {
    bs[k].Reply? && bs[k].id.Some? && !bs[k].isError && Awaited(bs, k, bs[k].id.value)
  }

  ghost predicate FittingWrite(green: bool, bs: seq<Block>, k: nat, kind: Write, judge: Judge)
    requires k < |bs|
  {
    bs[k] == WriteCall(kind) && GreenAt(green, bs, k, judge)
  }

  ghost function GoodReplies(bs: seq<Block>): set<nat> {
    set k: nat | k < |bs| && GoodReply(bs, k)
  }

  ghost function FittingWrites(green: bool, bs: seq<Block>, kind: Write, judge: Judge): set<nat> {
    set k: nat | k < |bs| && FittingWrite(green, bs, k, kind, judge)
  }

  function WritesIn(bs: seq<Block>): set<nat> {
    set k: nat | k < |bs| && bs[k].WriteCall?
  }

  function CallsIn(bs: seq<Block>): set<nat> {
    set k: nat | k < |bs| && bs[k].BashCall?
  }

  /** Every counter of a turn, by the positions of the blocks it counts. */
  ghost predicate Counted(green: bool, bs: seq<Block>, judge: Judge, r: Counts) {
    && r.writes == |WritesIn(bs)| && r.total == |CallsIn(bs)| && r.ok == |GoodReplies(bs)|
    && r.edits == |FittingWrites(green, bs, TestEdit, judge)| && r.news == |FittingWrites(green, bs, TestNew, judge)|
    && (r.green <==> GreenAt(green, bs, |bs|, judge))
  }

  ghost predicate Waiting(bs: seq<Block>, c: Counts) {
    && (forall id :: id in c.pending <==> Awaited(bs, |bs|, id))
    && (forall id, cmd :: id in c.tests && c.tests[id] == cmd <==> Tests(bs, |bs|, id, cmd))
  }

  /** What stands before a position does not depend on what comes after it. */
  lemma Earlier(init: seq<Block>, b: Block, k: nat, id: string)
    requires k <= |init|
    ensures Awaited(init + [b], k, id) <==> Awaited(init, k, id)
    ensures forall cmd :: Tests(init + [b], k, id, cmd) <==> Tests(init, k, id, cmd)
  {
    assert forall m | 0 <= m < k :: (init + [b])[m] == init[m];
  }

  lemma AwaitedStep(init: seq<Block>, b: Block, id: string)
    ensures var bs := init + [b];
            Awaited(bs, |bs|, id) <==> Calls(b, id) || (Awaited(init, |init|, id) && !Answers(b, id))
  {
    var bs, n := init + [b], |init|;
    if Awaited(bs, n + 1, id) {
      var j :| 0 <= j < n + 1 && Calls(bs[j], id) && forall m | j < m < n + 1 :: !Answers(bs[m], id);
      if j < n {
        assert Calls(init[j], id) && forall m | j < m < n :: !Answers(init[m], id) by {
          forall m | j < m < n ensures !Answers(init[m], id) { assert bs[m] == init[m]; }
        }
        assert !Answers(bs[n], id);
      }
    }
    if Calls(b, id) {
      assert bs[n] == b;
    } else if Awaited(init, n, id) && !Answers(b, id) {
      var j :| 0 <= j < n && Calls(init[j], id) && forall m | j < m < n :: !Answers(init[m], id);
      assert bs[j] == init[j];
    }
  }

  lemma TestsStep(init: seq<Block>, b: Block, id: string, cmd: string)
    ensures var bs := init + [b];
            Tests(bs, |bs|, id, cmd) <==>
            TestCall(b, id, cmd) || (Tests(init, |init|, id, cmd) && !Answers(b, id) && !AnyTest(b, id))
  {
    var bs, n := init + [b], |init|;
    if Tests(bs, n + 1, id, cmd) {
      var j :| 0 <= j < n + 1 && TestCall(bs[j], id, cmd)
               && forall m | j < m < n + 1 :: !Answers(bs[m], id) && !AnyTest(bs[m], id);
      if j < n {
        forall m | j < m < n ensures !Answers(init[m], id) && !AnyTest(init[m], id) { assert bs[m] == init[m]; }
        assert TestCall(init[j], id, cmd) && !Answers(bs[n], id) && !AnyTest(bs[n], id);
      }
    }
    if TestCall(b, id, cmd) {
      assert bs[n] == b;
    } else if Tests(init, n, id, cmd) && !Answers(b, id) && !AnyTest(b, id) {
      var j :| 0 <= j < n && TestCall(init[j], id, cmd)
               && forall m | j < m < n :: !Answers(init[m], id) && !AnyTest(init[m], id);
      assert bs[j] == init[j];
    }
  }

  lemma ShownEarlier(init: seq<Block>, b: Block, j: nat, judge: Judge)
    requires j < |init|
    ensures ShowsGreen(init + [b], j, judge) <==> ShowsGreen(init, j, judge)
  {
    hide Tests;
    assert (init + [b])[j] == init[j];
    if init[j].Reply? && init[j].id.Some? { Earlier(init, b, j, init[j].id.value); }
  }

  lemma GreenEarlier(green: bool, init: seq<Block>, b: Block, k: nat, judge: Judge)
    requires k <= |init|
    ensures GreenAt(green, init + [b], k, judge) <==> GreenAt(green, init, k, judge)
  {
    hide ShowsGreen;
    forall j: nat | j < k
      ensures ShowsGreen(init + [b], j, judge) <==> ShowsGreen(init, j, judge)
    {
      ShownEarlier(init, b, j, judge);
    }
  }

  lemma GreenStep(green: bool, init: seq<Block>, b: Block, judge: Judge)
    ensures var bs := init + [b];
            GreenAt(green, bs, |bs|, judge) <==> GreenAt(green, init, |init|, judge) || ShowsGreen(bs, |init|, judge)
  {
    hide ShowsGreen;
    var bs, n := init + [b], |init|;
    GreenEarlier(green, init, b, n, judge);
  }

  lemma RepliesStep(init: seq<Block>, b: Block)
    ensures var bs, n := init + [b], |init|;
            |GoodReplies(bs)| == |GoodReplies(init)| + (if GoodReply(bs, n) then 1 else 0)
  {
    hide Awaited;
    var bs, n := init + [b], |init|;
    forall k: nat | k < n ensures GoodReply(bs, k) <==> GoodReply(init, k) {
      assert bs[k] == init[k];
      if init[k].Reply? && init[k].id.Some? { Earlier(init, b, k, init[k].id.value); }
    }
    assert GoodReplies(bs) == GoodReplies(init) + if GoodReply(bs, n) then {n} else {};
  }

  lemma FittingStep(green: bool, init: seq<Block>, b: Block, kind: Write, judge: Judge)
    ensures var bs, n := init + [b], |init|;
            |FittingWrites(green, bs, kind, judge)|
            == |FittingWrites(green, init, kind, judge)| + (if FittingWrite(green, bs, n, kind, judge) then 1 else 0)
  {
    hide GreenAt;
    var bs, n := init + [b], |init|;
    forall k: nat | k < n
      ensures FittingWrite(green, bs, k, kind, judge) <==> FittingWrite(green, init, k, kind, judge)
    {
      assert bs[k] == init[k];
      GreenEarlier(green, init, b, k, judge);
    }
    assert FittingWrites(green, bs, kind, judge)
           == FittingWrites(green, init, kind, judge) + if FittingWrite(green, bs, n, kind, judge) then {n} else {};
  }

  lemma WritesStep(init: seq<Block>, b: Block)
    ensures |WritesIn(init + [b])| == |WritesIn(init)| + (if b.WriteCall? then 1 else 0)
  {
    var bs, n := init + [b], |init|;
    assert forall k: nat | k < n :: bs[k] == init[k];
    assert WritesIn(bs) == WritesIn(init) + if b.WriteCall? then {n} else {};
  }

  lemma CallsStep(init: seq<Block>, b: Block)
    ensures |CallsIn(init + [b])| == |CallsIn(init)| + (if b.BashCall? then 1 else 0)
  {
    var bs, n := init + [b], |init|;
    assert forall k: nat | k < n :: bs[k] == init[k];
    assert CallsIn(bs) == CallsIn(init) + if b.BashCall? then {n} else {};
  }

  /** The running counters count what they should: successes are the replies without error to a waiting
      Bash call, test fitting is the writes after a green suite was seen. */
  lemma {:induction false} CountsByPosition(green: bool, bs: seq<Block>, judge: Judge)
    ensures Counted(green, bs, judge, After(Start(green), bs, judge)) && Waiting(bs, After(Start(green), bs, judge))
  {
    hide Awaited, Tests, GreenAt, GoodReplies, FittingWrites, WritesIn, CallsIn;
    if bs == [] {
      NothingYet(green, judge);
    } else {
      var init, b := bs[..|bs| - 1], bs[|bs| - 1];
      assert bs == init + [b];
      CountsByPosition(green, init, judge);
      CountedStep(green, init, b, judge, After(Start(green), init, judge));
    }
  }

  lemma NothingYet(green: bool, judge: Judge)
    ensures Counted(green, [], judge, Start(green)) && Waiting([], Start(green))
  {
    assert WritesIn([]) == {} && CallsIn([]) == {} && GoodReplies([]) == {};
    assert forall kind :: FittingWrites(green, [], kind, judge) == {};
  }

  lemma WaitingStep(init: seq<Block>, b: Block, judge: Judge, c: Counts)
    requires Waiting(init, c)
    ensures Waiting(init + [b], AfterBlock(c, b, judge))
  {
    hide Awaited, Tests;
    var bs, n, d := init + [b], |init|, AfterBlock(c, b, judge);
    forall id
      ensures id in d.pending <==> Awaited(bs, |bs|, id)
    {
      AwaitedStep(init, b, id);
    }
    forall id, cmd
      ensures id in d.tests && d.tests[id] == cmd <==> Tests(bs, |bs|, id, cmd)
    {
      TestsStep(init, b, id, cmd);
      assert id in c.tests && c.tests[id] == cmd <==> Tests(init, n, id, cmd);
    }
  }

  /** What the last block shows, in terms of the counters before it. */
  lemma LastBlock(green: bool, init: seq<Block>, b: Block, judge: Judge, c: Counts)
    requires Waiting(init, c) && (c.green <==> GreenAt(green, init, |init|, judge))
    ensures var bs, n := init + [b], |init|;
            && (GoodReply(bs, n) <==> b.Reply? && b.id.Some? && !b.isError && b.id.value in c.pending)
            && (ShowsGreen(bs, n, judge) <==>
                  b.Reply? && b.id.Some? && b.id.value in c.tests && judge(c.tests[b.id.value], b.isError, b.text))
            && forall kind :: FittingWrite(green, bs, n, kind, judge) <==> b == WriteCall(kind) && c.green
  {
    hide Awaited, Tests, GreenAt;
    var bs, n := init + [b], |init|;
    assert bs[n] == b;
    GreenEarlier(green, init, b, n, judge);
    if b.Reply? && b.id.Some? {
      var id := b.id.value;
      Earlier(init, b, n, id);
      if id in c.tests { assert Tests(init, n, id, c.tests[id]); }
    }
  }

  lemma CountedStep(green: bool, init: seq<Block>, b: Block, judge: Judge, c: Counts)
    requires Counted(green, init, judge, c) && Waiting(init, c)
    ensures Counted(green, init + [b], judge, AfterBlock(c, b, judge)) && Waiting(init + [b], AfterBlock(c, b, judge))
  {
    hide Waiting, GreenAt, GoodReplies, FittingWrites, WritesIn, CallsIn, GoodReply, FittingWrite, ShowsGreen;
    WaitingStep(init, b, judge, c);
    LastBlock(green, init, b, judge, c);
    WritesStep(init, b);
    CallsStep(init, b);
    RepliesStep(init, b);
    FittingStep(green, init, b, TestEdit, judge);
    FittingStep(green, init, b, TestNew, judge);
    GreenStep(green, init, b, judge);
  }

  // ---------------------------------------------------------------- the messages

  lemma {:induction false} BlocksConcat(a: seq<Message>, b: seq<Message>)
    ensures Blocks(a + b) == Blocks(a) + Blocks(b)
  {
    if b == [] {
      assert a + b == a && Blocks(a) + [] == Blocks(a);
    } else {
      var all, init, last := a + b, b[..|b| - 1], b[|b| - 1];
      assert all != [] && all[..|all| - 1] == a + init && all[|all| - 1] == last;
      BlocksConcat(a, init);
      assert Blocks(all) == Blocks(a) + Blocks(init) + last.blocks;
      assert Blocks(b) == Blocks(init) + last.blocks;
      assert Blocks(a) + Blocks(init) + last.blocks == Blocks(a) + (Blocks(init) + last.blocks);
    }
  }

  lemma BlocksOne(m: Message)
    ensures Blocks([m]) == m.blocks
  {
    assert [m][..0] == [];
  }

  /** Message `i` carries this error, and none after it carries one. */
  ghost predicate ErrorAt(ms: seq<Message>, i: nat, e: string) {
    i < |ms| && ms[i].error == Some(e) && forall j | i < j < |ms| :: ms[j].error.None?
  }

  lemma ErrorAtStep(init: seq<Message>, m: Message, i: nat, e: string)
    ensures ErrorAt(init + [m], i, e) <==> if i < |init| then ErrorAt(init, i, e) && m.error.None?
                                           else i == |init| && m.error == Some(e)
  {
    var ms := init + [m];
    assert ms[|init|] == m && forall j | 0 <= j < |init| :: ms[j] == init[j];
  }

  /** The error of the last message that has one. */
  lemma {:induction false} ErrorIsLast(ms: seq<Message>, e: string)
    ensures LastError(ms) == Some(e) <==> exists i :: ErrorAt(ms, i, e)
  {
    if ms == [] {
      assert forall i :: !ErrorAt(ms, i, e);
    } else {
      hide ErrorAt;
      var init, m := ms[..|ms| - 1], ms[|ms| - 1];
      assert ms == init + [m];
      ErrorIsLast(init, e);
      forall i: nat
        ensures ErrorAt(ms, i, e) <==> if i < |init| then ErrorAt(init, i, e) && m.error.None?
                                       else i == |init| && m.error == Some(e)
      {
        ErrorAtStep(init, m, i, e);
      }
      if i :| ErrorAt(init, i, e) { AtInside(init, i, e); }
      assert m.error == Some(e) ==> ErrorAt(ms, |init|, e);
    }
  }

  lemma AtInside(ms: seq<Message>, i: nat, e: string)
    requires ErrorAt(ms, i, e)
    ensures i < |ms|
  {
  }

  predicate HasUsage(m: Message, result: bool) {
    m.usage.Some? && m.result == result
  }

  ghost predicate UsageAt(ms: seq<Message>, i: nat, result: bool, u: Tokens) {
    i < |ms| && HasUsage(ms[i], result) && ms[i].usage == Some(u) && forall j | i < j < |ms| :: !HasUsage(ms[j], result)
  }

  lemma UsageAtStep(init: seq<Message>, m: Message, i: nat, result: bool, u: Tokens)
    ensures UsageAt(init + [m], i, result, u) <==>
            if i < |init| then UsageAt(init, i, result, u) && !HasUsage(m, result)
            else i == |init| && HasUsage(m, result) && m.usage == Some(u)
  {
    var ms := init + [m];
    assert ms[|init|] == m && forall j | 0 <= j < |init| :: ms[j] == init[j];
  }

  /** The usage of the last message of its sort that has one. */
  lemma {:induction false} UsageIsLast(ms: seq<Message>, result: bool, u: Tokens)
    ensures Usage(ms, result) == Some(u) <==> exists i :: UsageAt(ms, i, result, u)
  {
    if ms == [] {
      assert forall i :: !UsageAt(ms, i, result, u);
    } else {
      hide UsageAt;
      var init, m := ms[..|ms| - 1], ms[|ms| - 1];
      assert ms == init + [m];
      UsageIsLast(init, result, u);
      forall i: nat
        ensures UsageAt(ms, i, result, u) <==> if i < |init| then UsageAt(init, i, result, u) && !HasUsage(m, result)
                                               else i == |init| && HasUsage(m, result) && m.usage == Some(u)
      {
        UsageAtStep(init, m, i, result, u);
      }
      if i :| UsageAt(init, i, result, u) { UsageInside(init, i, result, u); }
      assert HasUsage(m, result) && m.usage == Some(u) ==> UsageAt(ms, |init|, result, u);
    }
  }

  lemma UsageInside(ms: seq<Message>, i: nat, result: bool, u: Tokens)
    requires UsageAt(ms, i, result, u)
    ensures i < |ms|
  {
  }

  /** How many messages are read: all of them, or up to the first after which the marker stands. */
  function Heard(ms: seq<Message>): (n: nat)
    ensures n <= |ms| && (forall i | 0 <= i < n - 1 :: !ms[i].trap) && (n < |ms| ==> n > 0 && ms[n - 1].trap)
  {
    if ms == [] then 0 else if ms[0].trap then 1 else 1 + Heard(ms[1..])
  }

  /** The usage of the result message read last, else of the other message read last. */
  function Usage(ms: seq<Message>, result: bool): Option<Tokens> {
    if ms == [] then None
    else
      var m := ms[|ms| - 1];
      if m.usage.Some? && m.result == result then m.usage else Usage(ms[..|ms| - 1], result)
  }

  function LastError(ms: seq<Message>): Option<string> {
    if ms == [] then None
    else if ms[|ms| - 1].error.Some? then ms[|ms| - 1].error else LastError(ms[..|ms| - 1])
  }

  /** `_execute_turn` after the query. The green flag is the session's. */
  method ExecuteTurn(ms: seq<Message>, green: bool, judge: Judge) returns (r: TurnResult, greenNow: bool)
    ensures var heard := ms[..Heard(ms)]; var c := After(Start(green), Blocks(heard), judge);
            && r.writes == c.writes && r.bashTotal == c.total && r.bashOk == c.ok
            && r.edits == c.edits && r.news == c.news && greenNow == c.green
            && r.trap == (exists m :: m in heard && m.trap) && r.error == LastError(heard)
            && r.usage == (if Usage(heard, true).Some? then Usage(heard, true).value
                           else if Usage(heard, false).Some? then Usage(heard, false).value else NO_TOKENS)
    ensures var bs := Blocks(ms[..Heard(ms)]);
            && r.writes == |WritesIn(bs)| && r.bashTotal == |CallsIn(bs)| && r.bashOk == |GoodReplies(bs)|
            && r.edits == |FittingWrites(green, bs, TestEdit, judge)|
            && r.news == |FittingWrites(green, bs, TestNew, judge)|
            && (greenNow <==> GreenAt(green, bs, |bs|, judge))
  {
    hide After, GoodReplies, FittingWrites, WritesIn, CallsIn, GreenAt, Waiting;
    AfterNone(Start(green), judge);
    var writes, total, ok, edits, news := 0, 0, 0, 0, 0;
    var pending: set<string>, tests: map<string, string> := {}, map[];
    var turnTotal: Option<Tokens>, window: Option<Tokens>, error: Option<string> := None, None, None;
    var trap, i := false, 0;
    greenNow := green;
    ghost var c := Start(green);
    while i < |ms| && !trap
      invariant i <= |ms| && c == After(Start(green), Blocks(ms[..i]), judge)
      invariant Same(c, writes, total, ok, pending, tests, edits, news, greenNow)
      invariant turnTotal == Usage(ms[..i], true) && window == Usage(ms[..i], false) && error == LastError(ms[..i])
      invariant trap ==> i > 0 && ms[i - 1].trap
      invariant forall j | 0 <= j < (if trap then i - 1 else i) :: !ms[j].trap
    {
      var m := ms[i];
      assert ms[..i + 1][..i] == ms[..i];
      if m.usage.Some? {
        if m.result { turnTotal := m.usage; } else { window := m.usage; }
      }
      if m.error.Some? { error := m.error; }
      ghost var c0 := c;
      AfterNone(c0, judge);
      for k := 0 to |m.blocks|
        invariant c == After(c0, m.blocks[..k], judge)
        invariant Same(c, writes, total, ok, pending, tests, edits, news, greenNow)
      {
        AfterSnoc(c0, m.blocks, k, judge);
        c := AfterBlock(c, m.blocks[k], judge);
        match m.blocks[k] {
          case WriteCall(kind) =>
            writes := writes + 1;
            if greenNow {
              if kind.TestEdit? { edits := edits + 1; } else if kind.TestNew? { news := news + 1; }
            }
          case BashCall(id, test) =>
            total := total + 1;
            if id.Some? {
              pending := pending + {id.value};
              if test.Some? { tests := tests[id.value := test.value]; }
            }
          case Reply(id, isError, text) =>
            if id.Some? && id.value in pending {
              pending := pending - {id.value};
              if !isError { ok := ok + 1; }
            }
            if id.Some? && id.value in tests {
              if judge(tests[id.value], isError, text) { greenNow := true; }
              tests := tests - {id.value};
            }
        }
      }
      assert m.blocks[..|m.blocks|] == m.blocks;
      AfterConcat(Start(green), Blocks(ms[..i]), m.blocks, judge);
      trap := m.trap;
      i := i + 1;
    }
    HeardIs(ms, i);
    CountsByPosition(green, Blocks(ms[..i]), judge);
    r := TurnResult(if turnTotal.Some? then turnTotal.value else if window.Some? then window.value else NO_TOKENS,
                    writes, error, trap, total, ok, edits, news);
  }

  ghost predicate Same(c: Counts, writes: nat, total: nat, ok: nat, pending: set<string>, tests: map<string, string>,
                       edits: nat, news: nat, green: bool) {
    && c.writes == writes && c.total == total && c.ok == ok && c.pending == pending && c.tests == tests
    && c.edits == edits && c.news == news && c.green == green
  }

  lemma {:induction false} HeardIs(ms: seq<Message>, n: nat)
    requires n <= |ms| && (forall i | 0 <= i < n - 1 :: !ms[i].trap)
    requires n == |ms| || (n > 0 && ms[n - 1].trap)
    ensures Heard(ms) == n
  {
    if ms != [] && !ms[0].trap {
      HeardIs(ms[1..], n - 1);
    }
  }
}
