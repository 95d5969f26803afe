/** The session: the turn loop, its verdict pipeline and its telemetry
    (launcher/session.py:90-103, 668-758, 805-905, 907-938, 1014-1108; launcher/cli.py:124-174;
    launcher/summary.py:303-340). */
module Session {
  import opened Text
  import opened FileTree
  import opened Verdicts
  import opened Turn
  import opened Verification
  import Contract

  /** How a turn came out: too slow, an exception (of the infrastructure or not), or a result together
      with the tree it left and what a verification of that tree would answer. */
  datatype Outcome =
    | TimedOut
    | Broke(infra: bool)
    | Finished(result: TurnResult, tree: Tree, listing: Listing, suite: Suite)

  /** Everything outside the loop: the two self-checks, the contract, and the outcome of every turn. */
  datatype Run = Run(bashWorks: bool, hooksWork: bool, before: Contract.Manifest, declared: seq<Names>,
                     accepts: seq<string>, turn: nat -> Outcome)

  /** One entry of the per-turn telemetry. */
  datatype Record = Record(turn: nat, tokens: Tokens, writes: nat, bashTotal: nat, bashOk: nat)

  // ---------------------------------------------------------------- the published verdict

  /** `decide`: recorded violations, then an override, then the table. */
  function Decide(violated: bool, override: Option<Probe>, rc: int, verifier: Verifier, turns: int): Probe {
    if violated then ContractFail
    else if override.Some? then override.value
    else if rc == 0 && verifier == PASS then if turns == 1 then CleanFirst else PassAfterLocalRetry
    else if rc == ENV_FAIL then EnvFail
    else VerifyFail
  }

  /** The verdict table: every row a session may publish. */
  predicate Row(s: Summary) {
    s.probe.Some? &&
    match (s.rc, s.verifier)
    case (0, PASS) => s.probe.value in {CleanFirst, PassAfterLocalRetry, PassBlind}
    case (1, PASS) => s.probe.value == NoOpPass
    case (1, FAIL) => s.probe.value in {ContractFail, LoopTrap, VerifyFail}
    case (16, FAIL) => s.probe.value == EnvFail
    case _ => false
  }

  // ---------------------------------------------------------------- what a turn does to the contract

  ghost predicate Clean(run: Run, k: nat) {
    run.turn(k).Finished? && Contract.Intact(run.before, Contract.ManifestOf(run.turn(k).tree, []), run.declared)
  }

  ghost predicate Verified(run: Run, k: nat) {
    && run.turn(k).Finished?
    && Green(run.turn(k).tree, run.declared, run.accepts, run.turn(k).listing, run.turn(k).suite)
  }

  const NOT_VERIFIED := Summary(1, FAIL, Some(VerifyFail))

  /** Which pass a code 0 at turn `k` is: blind without one successful Bash call in all the turns, else
      clean at the first turn and after a retry later. */
  function PassProbe(k: nat, bashOk: nat): Probe {
    if bashOk == 0 then PassBlind else if k == 1 then CleanFirst else PassAfterLocalRetry
  }

  /** What a finished turn decides, in the order of the pipeline: a dead session, a touched contract, an
      environment failure, a pass without work, a pass; or None, to go on. `bashOk` counts the
      successful Bash calls up to and including this turn. */
  ghost function TurnVerdict(run: Run, k: nat, bashOk: nat): Option<Summary>
    requires run.turn(k).Finished?
  {
    var o := run.turn(k);
    if o.result.error.Some? then Some(NOT_VERIFIED)
    else if !Clean(run, k) then Some(Summary(1, FAIL, Some(ContractFail)))
    else if ReadsAsEnv(o.listing, o.suite) then Some(ENV_FAIL_SUMMARY)
    else if !Verified(run, k) then None
    else if k == 1 && o.result.writes == 0 then Some(Summary(1, PASS, Some(NoOpPass)))
    else Some(Summary(0, PASS, Some(PassProbe(k, bashOk))))
  }

  /** How a session ended. */
  datatype Exit = NeverStarted | Timeout | Exception | Trapped | Decided | Exhausted

  /** The end of a session: how, after how many finished turns, what is published, and the turn count
      left in the job record. */
  datatype Ending = Ending(exit: Exit, n: nat, published: Summary, turns: Option<int>)

  /** The rest of a session from turn `k` on. */
  ghost function Play(run: Run, maxRetries: int, k: nat, bashOk: nat): Ending
    requires k >= 1
    decreases 2 + maxRetries - k
  {
    if k > 1 + maxRetries then Ending(Exhausted, k - 1, NOT_VERIFIED, Some(1 + maxRetries))
    else
      match run.turn(k)
      case TimedOut => Ending(Timeout, k - 1, NOT_VERIFIED, Some(k))
      case Broke(infra) => Ending(Exception, k - 1, if infra then ENV_FAIL_SUMMARY else NOT_VERIFIED, None)
      case Finished(result, _, _, _) =>
        if result.trap then Ending(Trapped, k, Summary(1, FAIL, Some(LoopTrap)), Some(k))
        else
          match TurnVerdict(run, k, bashOk + result.bashOk)
          case Some(v) => Ending(Decided, k, v, Some(k))
          case None => Play(run, maxRetries, k + 1, bashOk + result.bashOk)
  }

  ghost function Played(run: Run, maxRetries: int): Ending {
    if !run.bashWorks || !run.hooksWork then Ending(NeverStarted, 0, ENV_FAIL_SUMMARY, Some(0))
    else Play(run, maxRetries, 1, 0)
  }

  /** The suite is run in a turn that was not trapped, did not die, and compared clean. */
  ghost predicate SuiteAt(run: Run, k: nat) {
    && run.turn(k).Finished? && !run.turn(k).result.trap && run.turn(k).result.error.None?
    && Clean(run, k) && SuiteRuns(run.turn(k).listing)
  }

  // ---------------------------------------------------------------- sums over the finished turns

  function Plus(a: Tokens, b: Tokens): Tokens {
    Tokens(a.input + b.input, a.output + b.output, a.read + b.read, a.create + b.create)
  }

  /** What the first `n` turns add up to; they are finished turns. */
  datatype Totals = Totals(tokens: Tokens, bashTotal: nat, bashOk: nat, edits: nat, news: nat)

  function Sums(run: Run, n: nat): Totals
    requires forall k | 1 <= k <= n :: run.turn(k).Finished?
  {
    if n == 0 then Totals(NO_TOKENS, 0, 0, 0, 0)
    else
      var s, r := Sums(run, n - 1), run.turn(n).result;
      Totals(Plus(s.tokens, r.usage), s.bashTotal + r.bashTotal, s.bashOk + r.bashOk, s.edits + r.edits,
             s.news + r.news)
  }

  function RecordOf(turn: nat, r: TurnResult): Record {
    Record(turn, r.usage, r.writes, r.bashTotal, r.bashOk)
  }

  function Records(run: Run, n: nat): (r: seq<Record>)
    requires forall k | 1 <= k <= n :: run.turn(k).Finished?
    ensures |r| == n && forall k | 0 <= k < n :: r[k] == RecordOf(k + 1, run.turn(k + 1).result)
  {
    if n == 0 then [] else Records(run, n - 1) + [RecordOf(n, run.turn(n).result)]
  }

  /** The job record a run fills in. Absent keys are None; free texts are not kept. */
  class Job {
    var verifier: Option<Verifier>
    var turns: Option<int>
    var probe: Option<Probe>
    var violations: set<(nat, Contract.Violation)>
    var failures: seq<Failure>
    var totals: Totals
    var telemetry: seq<Record>
    /** The turns whose suite was run: an observation, not a key of the source's record. */
    ghost var suiteRuns: set<nat>

    constructor ()
      ensures verifier.None? && turns.None? && probe.None? && violations == {} && telemetry == [] && suiteRuns == {}
      ensures totals == Totals(NO_TOKENS, 0, 0, 0, 0)
    {
      verifier, turns, probe, violations, failures := None, None, None, {}, [];
      totals, telemetry, suiteRuns := Totals(NO_TOKENS, 0, 0, 0, 0), [], {};
    }

    /** The fields of summary.json that decide, with the defaults of absent keys. */
    function Published(rc: int): Summary
      reads this
    {
      var v := if verifier.Some? then verifier.value else FAIL;
      Summary(rc, v, Some(Decide(violations != {}, probe, rc, v, if turns.Some? then turns.value else 1)))
    }

    /** Nothing decided yet. */
    ghost predicate Open()
      reads this
    {
      verifier.None? && turns.None? && probe.None? && violations == {}
    }

    /** `_record_turn_telemetry`. */
    method RecordTelemetry(result: TurnResult, turn: nat)
      modifies `totals, `telemetry
      ensures telemetry == old(telemetry) + [RecordOf(turn, result)]
      ensures totals == Totals(Plus(old(totals).tokens, result.usage), old(totals).bashTotal + result.bashTotal,
                               old(totals).bashOk + result.bashOk, old(totals).edits + result.edits,
                               old(totals).news + result.news)
    {
      totals := Totals(Plus(totals.tokens, result.usage), totals.bashTotal + result.bashTotal,
                       totals.bashOk + result.bashOk, totals.edits + result.edits, totals.news + result.news);
      telemetry := telemetry + [RecordOf(turn, result)];
    }

    method Close(v: Verifier, n: int)
      modifies `verifier, `turns
      ensures verifier == Some(v) && turns == Some(n)
    {
      verifier, turns := Some(v), Some(n);
    }

    /** `_check_contract_lock` and `_contract_lock_forced_fail`. */
    method ContractLock(run: Run, turn: nat) returns (forced: bool)
      requires Open() && run.turn(turn).Finished?
      modifies `violations, `probe, `verifier, `turns
      ensures forced <==> !Clean(run, turn)
      ensures !forced ==> Open()
      ensures forced ==> violations != {} && verifier == Some(FAIL) && turns == Some(turn)
    {
      var after := Contract.ManifestOf(run.turn(turn).tree, []);
      var report := Contract.CompareManifests(run.before, after, run.declared);
      Contract.EmptyReport(run.before, after, run.declared);
      violations := violations + set v | v in report :: (turn, v);
      if report != {} {
        var v :| v in report;
        assert (turn, v) in violations;
        assert !forall u :: !Contract.Reported(u, run.before, after, run.declared);
      }
      forced := violations != {};
      if forced {
        probe := Some(ContractFail);
        Close(FAIL, turn);
      }
    }

    /** `_post_turn_decision`: the exit code, or None to go on. */
    method PostTurnDecision(run: Run, turn: nat) returns (rc: Option<int>)
      requires Open() && turn >= 1 && run.turn(turn).Finished? && !run.turn(turn).result.trap
      modifies `violations, `probe, `verifier, `turns, `failures, `suiteRuns
      ensures rc.None? ==> Open() && TurnVerdict(run, turn, totals.bashOk).None?
      ensures rc.Some? ==> turns == Some(turn) && TurnVerdict(run, turn, totals.bashOk) == Some(Published(rc.value))
      ensures suiteRuns == if SuiteAt(run, turn) then old(suiteRuns) + {turn} else old(suiteRuns)
    {
      hide Clean, Contract.Intact, Contract.ManifestOf, Green, ReadsAsEnv, Failures;
      var result := run.turn(turn).result;
      if result.error.Some? {
        Close(FAIL, turn);
        return Some(1);
      }
      var forced := ContractLock(run, turn);
      if forced {
        return Some(1);
      }
      var ok, found, env, ran :=
        VerifyGate(run.turn(turn).tree, run.declared, run.accepts, run.turn(turn).listing, run.turn(turn).suite);
      if ran { suiteRuns := suiteRuns + {turn}; }
      if env {
        failures := found;
        Close(FAIL, turn);
        return Some(ENV_FAIL);
      }
      if ok {
        if turn == 1 && result.writes == 0 {
          probe := Some(NoOpPass);
          Close(PASS, turn);
          return Some(1);
        }
        if totals.bashOk == 0 {
          probe := Some(PassBlind);
        }
        Close(PASS, turn);
        return Some(0);
      }
      failures := found;
      rc := None;
    }

    /** One pass of the loop: None to go on with the next turn. */
    method TakeTurn(run: Run, maxRetries: int, turn: nat) returns (end: Option<(int, Exit)>)
      requires Open() && 1 <= turn <= 1 + maxRetries
      modifies this
      ensures var rest := Play(run, maxRetries, turn, old(totals).bashOk);
              if end.None? then
                && Open() && run.turn(turn).Finished?
                && rest == Play(run, maxRetries, turn + 1, old(totals).bashOk + run.turn(turn).result.bashOk)
              else rest == Ending(end.value.1, if run.turn(turn).Finished? then turn else turn - 1,
                                  Published(end.value.0), turns)
      ensures suiteRuns == if SuiteAt(run, turn) then old(suiteRuns) + {turn} else old(suiteRuns)
      ensures run.turn(turn).Finished? ==>
                var r := run.turn(turn).result;
                && telemetry == old(telemetry) + [RecordOf(turn, r)]
                && totals == Totals(Plus(old(totals).tokens, r.usage), old(totals).bashTotal + r.bashTotal,
                                    old(totals).bashOk + r.bashOk, old(totals).edits + r.edits,
                                    old(totals).news + r.news)
      ensures !run.turn(turn).Finished? ==> telemetry == old(telemetry) && totals == old(totals)
    {
      hide Clean, Verified, Plus, TurnVerdict;
      match run.turn(turn) {
        case TimedOut =>
          Close(FAIL, turn);
          return Some((1, Timeout));
        case Broke(infra) =>
          return Some((if infra then ENV_FAIL else 1, Exception));
        case Finished(result, _, _, _) =>
          RecordTelemetry(result, turn);
          if result.trap {
            probe := Some(LoopTrap);
            Close(FAIL, turn);
            return Some((1, Trapped));
          }
          var rc := PostTurnDecision(run, turn);
          end := if rc.Some? then Some((rc.value, Decided)) else None;
      }
    }
  }

  lemma NoTurnYet(run: Run)
    ensures Sums(run, 0) == Totals(NO_TOKENS, 0, 0, 0, 0) && Records(run, 0) == []
  {
  }

  lemma NextTurn(run: Run, n: nat)
    requires n > 0 && forall k | 1 <= k <= n :: run.turn(k).Finished?
    ensures Records(run, n) == Records(run, n - 1) + [RecordOf(n, run.turn(n).result)]
    ensures var s, r := Sums(run, n - 1), run.turn(n).result;
            Sums(run, n) == Totals(Plus(s.tokens, r.usage), s.bashTotal + r.bashTotal, s.bashOk + r.bashOk,
                                   s.edits + r.edits, s.news + r.news)
  {
  }

  /** `run_continuous_session` with the exit codes `_run_session` gives an exception: the job record ends
      as specified, with the sums and the records of exactly the finished turns. */
  method RunSession(job: Job, run: Run, maxRetries: int) returns (rc: int, exit: Exit, n: nat)
    requires job.Open() && job.telemetry == [] && job.totals == Totals(NO_TOKENS, 0, 0, 0, 0) && job.suiteRuns == {}
    modifies job
    ensures Ending(exit, n, job.Published(rc), job.turns) == Played(run, maxRetries)
    ensures forall k | 1 <= k <= n :: run.turn(k).Finished?
    ensures job.totals == Sums(run, n) && job.telemetry == Records(run, n)
    ensures forall k :: k in job.suiteRuns <==> 1 <= k <= n && SuiteAt(run, k)
  {
    hide Clean, Verified, Plus, Sums, Records, RecordOf, Play, SuiteAt;
    NoTurnYet(run);
    n := 0;
    if !run.bashWorks || !run.hooksWork {
      job.Close(FAIL, 0);
      return ENV_FAIL, NeverStarted, 0;
    }
    var turn := 1;
    while turn <= 1 + maxRetries
      invariant 1 <= turn && n == turn - 1 && job.Open()
      invariant forall k | 1 <= k <= n :: run.turn(k).Finished?
      invariant job.totals == Sums(run, n) && job.telemetry == Records(run, n)
      invariant Play(run, maxRetries, turn, job.totals.bashOk) == Played(run, maxRetries)
      invariant forall k :: k in job.suiteRuns <==> 1 <= k <= n && SuiteAt(run, k)
    {
      var end := job.TakeTurn(run, maxRetries, turn);
      if run.turn(turn).Finished? {
        NextTurn(run, turn);
        n := turn;
      } else {
        NoSuite(run, turn);
      }
      if end.Some? {
        return end.value.0, end.value.1, n;
      }
      turn := turn + 1;
    }
    TurnsSpent(run, maxRetries, turn, job.totals.bashOk);
    job.Close(FAIL, 1 + maxRetries);
    return 1, Exhausted, n;
  }

  lemma NoSuite(run: Run, k: nat)
    requires !run.turn(k).Finished?
    ensures !SuiteAt(run, k)
  {
  }

  lemma TurnsSpent(run: Run, maxRetries: int, k: nat, bashOk: nat)
    requires k >= 1 && k > 1 + maxRetries
    ensures Play(run, maxRetries, k, bashOk) == Ending(Exhausted, k - 1, NOT_VERIFIED, Some(1 + maxRetries))
  {
  }

  // ---------------------------------------------------------------- what every session guarantees

  /** What holds of every end, `k` being the first turn still open. */
  ghost predicate Sound(run: Run, maxRetries: int, k: nat, e: Ending) {
    && e.n + 1 >= k && Row(e.published) && (forall j | k <= j <= e.n :: run.turn(j).Finished?)
    && (e.n < k || e.n <= 1 + maxRetries)
    && (forall j | k <= j <= e.n && SuiteAt(run, j) :: Clean(run, j))
    && (forall j | k <= j < e.n :: Clean(run, j) && !Verified(run, j))
    && (e.published.rc == 0 ==>
          e.exit == Decided && e.n >= k && Clean(run, e.n) && Verified(run, e.n) && run.turn(e.n).result.error.None?
          && (e.n > 1 || run.turn(e.n).result.writes > 0))
    && TurnsLeft(maxRetries, k, e)
  }

  /** The published turn count against the number of turns recorded. */
  ghost predicate TurnsLeft(maxRetries: int, k: nat, e: Ending) {
    match e.exit
    case NeverStarted => e.n == 0 && e.turns == Some(0)
    case Timeout => e.turns == Some(e.n + 1)
    case Exception => e.turns.None?
    case Trapped => e.turns == Some(e.n as int)
    case Decided => e.turns == Some(e.n as int)
    case Exhausted => e.turns == Some(1 + maxRetries) && (e.n == 1 + maxRetries || (e.n + 1 == k && k > 2 + maxRetries))
  }

  lemma {:induction false} PlayIsSound(run: Run, maxRetries: int, k: nat, bashOk: nat)
    requires k >= 1
    ensures Sound(run, maxRetries, k, Play(run, maxRetries, k, bashOk))
    decreases 2 + maxRetries - k
  {
    hide Clean, Verified, ReadsAsEnv;
    if k <= 1 + maxRetries && run.turn(k).Finished? && !run.turn(k).result.trap {
      var ok := bashOk + run.turn(k).result.bashOk;
      if TurnVerdict(run, k, ok).None? {
        PlayIsSound(run, maxRetries, k + 1, ok);
      }
    }
  }

  /** The pass published is the one the finished turns' Bash successes add up to. */
  ghost predicate PassKind(run: Run, e: Ending)
    requires forall j | 1 <= j <= e.n :: run.turn(j).Finished?
  {
    && (e.published.probe == Some(PassBlind) <==> Sums(run, e.n).bashOk == 0)
    && (e.published.probe == Some(CleanFirst) <==> Sums(run, e.n).bashOk > 0 && e.n == 1)
    && (e.published.probe == Some(PassAfterLocalRetry) <==> Sums(run, e.n).bashOk > 0 && e.n != 1)
  }

  lemma {:induction false} PlayKind(run: Run, maxRetries: int, k: nat, bashOk: nat)
    requires k >= 1 && (forall j | 1 <= j < k :: run.turn(j).Finished?) && bashOk == Sums(run, k - 1).bashOk
    ensures var e := Play(run, maxRetries, k, bashOk);
            e.published.rc == 0 ==> (forall j | 1 <= j <= e.n :: run.turn(j).Finished?) && PassKind(run, e)
    decreases 2 + maxRetries - k
  {
    hide Clean, Verified, ReadsAsEnv, Plus;
    if k <= 1 + maxRetries && run.turn(k).Finished? && !run.turn(k).result.trap {
      NextTurn(run, k);
      var ok := bashOk + run.turn(k).result.bashOk;
      if TurnVerdict(run, k, ok).None? {
        PlayKind(run, maxRetries, k + 1, ok);
      }
    }
  }

  /** For every sequence of turn outcomes: the verdict is a row of the table, the turns stay within the
      limit, the suite ran at a turn only when it and all before it compared clean, a code 0 was earned
      by the last turn and published as the kind of pass it was, and the published turn count is the number
      of recorded turns, one more after a timeout, absent after an exception, and off only for retries
      below -1. */
  lemma SessionGuarantees(run: Run, maxRetries: int)
    ensures var e := Played(run, maxRetries);
            && Row(e.published) && (e.n == 0 || e.n <= 1 + maxRetries)
            && (forall k | 1 <= k <= e.n && SuiteAt(run, k) :: forall j | 1 <= j <= k :: Clean(run, j))
            && (e.published.rc == 0 ==> Verified(run, e.n) && forall j | 1 <= j <= e.n :: Clean(run, j))
            && (e.published.rc == 0 ==> (forall j | 1 <= j <= e.n :: run.turn(j).Finished?) && PassKind(run, e))
            && (e.turns == Some(e.n as int) <==>
                  !e.exit.Timeout? && !e.exit.Exception? && (e.exit.Exhausted? ==> maxRetries >= -1))
            && (e.exit.Timeout? ==> e.turns == Some(e.n + 1))
  {
    hide Clean, Verified, SuiteAt, Play, PassKind, Sums;
    PlayIsSound(run, maxRetries, 1, 0);
    NoTurnYet(run);
    PlayKind(run, maxRetries, 1, 0);
  }

  /** A finished turn that decides nothing: clean, alive, its failures not the environment's. */
  ghost predicate Undecided(run: Run, k: nat) {
    && run.turn(k).Finished? && !run.turn(k).result.trap && run.turn(k).result.error.None?
    && Clean(run, k) && !Verified(run, k) && !ReadsAsEnv(run.turn(k).listing, run.turn(k).suite)
  }

  ghost predicate Passes(run: Run, k: nat) {
    && run.turn(k).Finished? && !run.turn(k).result.trap && run.turn(k).result.error.None?
    && Clean(run, k) && Verified(run, k)
  }

  ghost predicate GoesOn(run: Run, k: nat, j: nat) {
    forall i | k <= i < j :: Undecided(run, i)
  }

  ghost predicate PassesAt(run: Run, maxRetries: int, k: nat, j: nat) {
    k <= j <= 1 + maxRetries && GoesOn(run, k, j) && Passes(run, j)
  }

  /** A session ends in a pass, without work or with it, exactly when some turn within the limit passes
      after turns that all left it undecided. */
  lemma {:induction false} PassesWhen(run: Run, maxRetries: int, k: nat, bashOk: nat)
    requires k >= 1
    ensures Play(run, maxRetries, k, bashOk).published.verifier == PASS <==> exists j :: PassesAt(run, maxRetries, k, j)
    decreases 2 + maxRetries - k
  {
    hide Clean, GoesOn;
    if k <= 1 + maxRetries {
      FirstTurn(run, k);
      if Undecided(run, k) {
        var ok := bashOk + run.turn(k).result.bashOk;
        var next := k + 1;
        PassesWhen(run, maxRetries, next, ok);
        assert Play(run, maxRetries, k, bashOk) == Play(run, maxRetries, next, ok);
        if j: nat :| PassesAt(run, maxRetries, next, j) {
          assert PassesAt(run, maxRetries, k, j);
        }
        if j: nat :| PassesAt(run, maxRetries, k, j) {
          assert PassesAt(run, maxRetries, next, j);
        }
      } else {
        assert forall j :: PassesAt(run, maxRetries, k, j) ==> j == k;
        assert PassesAt(run, maxRetries, k, k) <==> Passes(run, k);
      }
    }
  }

  lemma FirstTurn(run: Run, k: nat)
    ensures GoesOn(run, k, k) && !(Undecided(run, k) && Passes(run, k))
    ensures forall j | j > k :: GoesOn(run, k, j) <==> Undecided(run, k) && GoesOn(run, k + 1, j)
  {
    forall j | j > k
      ensures GoesOn(run, k, j) <==> Undecided(run, k) && GoesOn(run, k + 1, j)
    {
      assert GoesOn(run, k, j) ==> Undecided(run, k);
    }
  }

  // ---------------------------------------------------------------- which turn decides, and how

  /** What is left of a session that turn `k` ends: the row of the table each outcome lands in, and the
      turns counted. */
  ghost predicate EndsAt(run: Run, k: nat, e: Ending)
    requires k >= 1
  {
    match run.turn(k)
    case TimedOut => e == Ending(Timeout, k - 1, Summary(1, FAIL, Some(VerifyFail)), Some(k))
    case Broke(infra) =>
      e == Ending(Exception, k - 1,
                  if infra then Summary(16, FAIL, Some(EnvFail)) else Summary(1, FAIL, Some(VerifyFail)), None)
    case Finished(result, _, listing, suite) =>
      && e.n == k && e.turns == Some(k) && e.exit == (if result.trap then Trapped else Decided)
      && if result.trap then e.published == Summary(1, FAIL, Some(LoopTrap))
         else if result.error.Some? then e.published == Summary(1, FAIL, Some(VerifyFail))
         else if !Clean(run, k) then e.published == Summary(1, FAIL, Some(ContractFail))
         else if ReadsAsEnv(listing, suite) then e.published == Summary(16, FAIL, Some(EnvFail))
         else if k == 1 && result.writes == 0 then Verified(run, k) && e.published == Summary(1, PASS, Some(NoOpPass))
         else Verified(run, k) && e.published.rc == 0 && e.published.verifier == PASS
  }

  lemma {:induction false} PlayEnds(run: Run, maxRetries: int, k: nat, bashOk: nat, last: nat)
    requires 1 <= k <= last && GoesOn(run, k, last)
    ensures last <= 1 + maxRetries && !Undecided(run, last) ==> EndsAt(run, last, Play(run, maxRetries, k, bashOk))
    ensures last == 2 + maxRetries ==>
              Play(run, maxRetries, k, bashOk)
              == Ending(Exhausted, 1 + maxRetries, Summary(1, FAIL, Some(VerifyFail)), Some(1 + maxRetries))
    decreases last - k
  {
    hide Clean, Verified, ReadsAsEnv;
    if k < last {
      assert Undecided(run, k);
      if k <= 1 + maxRetries {
        PlayEnds(run, maxRetries, k + 1, bashOk + run.turn(k).result.bashOk, last);
      }
    }
  }

  /** A session ends with the first turn, within the limit, that does not leave it undecided, in the row
      that turn's outcome has; without such a turn it is used up, and it never starts without its hooks. */
  lemma EndsExactly(run: Run, maxRetries: int, last: nat)
    requires last >= 1 && GoesOn(run, 1, last)
    ensures var e := Played(run, maxRetries);
            if !run.bashWorks || !run.hooksWork
            then e == Ending(NeverStarted, 0, Summary(16, FAIL, Some(EnvFail)), Some(0))
            else
              && (last <= 1 + maxRetries && !Undecided(run, last) ==> EndsAt(run, last, e))
              && (last == 2 + maxRetries ==>
                    e == Ending(Exhausted, 1 + maxRetries, Summary(1, FAIL, Some(VerifyFail)), Some(1 + maxRetries)))
  {
    hide Play, EndsAt, Undecided;
    PlayEnds(run, maxRetries, 1, 0, last);
  }

  /** What one figure of the turns' results adds up to. */
  ghost function Total(run: Run, n: nat, f: TurnResult -> nat): nat
    requires forall k | 1 <= k <= n :: run.turn(k).Finished?
  {
    if n == 0 then 0 else Total(run, n - 1, f) + f(run.turn(n).result)
  }

  /** Every published total is the sum of its own figure over the finished turns. */
  lemma {:induction false} SumsAre(run: Run, n: nat)
    requires forall k | 1 <= k <= n :: run.turn(k).Finished?
    ensures var s := Sums(run, n);
            && s.tokens.input == Total(run, n, (r: TurnResult) => r.usage.input)
            && s.tokens.output == Total(run, n, (r: TurnResult) => r.usage.output)
            && s.tokens.read == Total(run, n, (r: TurnResult) => r.usage.read)
            && s.tokens.create == Total(run, n, (r: TurnResult) => r.usage.create)
            && s.bashTotal == Total(run, n, (r: TurnResult) => r.bashTotal)
            && s.bashOk == Total(run, n, (r: TurnResult) => r.bashOk)
            && s.edits == Total(run, n, (r: TurnResult) => r.edits)
            && s.news == Total(run, n, (r: TurnResult) => r.news)
  {
    if n > 0 {
      SumsAre(run, n - 1);
    }
  }

  /** One record for each finished turn, with that turn's own figures. */
  lemma RecordsAre(run: Run, n: nat, k: nat)
    requires (forall j | 1 <= j <= n :: run.turn(j).Finished?) && 1 <= k <= n
    ensures |Records(run, n)| == n
    ensures var r := run.turn(k).result;
            Records(run, n)[k - 1] == Record(k, r.usage, r.writes, r.bashTotal, r.bashOk)
  {
  }
}
