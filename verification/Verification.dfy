/** The verifier after a turn (launcher/verify.py:57-166). */
module Verification {
  import opened Text
  import opened FileTree

  /** `run.sh list`: it raised, or exited with the names it printed and the tail of its stderr. */
  datatype Listing = ListRaised | Listed(rc: int, tests: seq<string>, tail: string)

  /** `run.sh test --all`: too slow, not runnable, or exited with the tail of its output. */
  datatype Suite = TooSlow | NotRun(error: string) | Exited(rc: int, tail: string)

  /** A declared path that is missing, an accept file the runner does not list, or the text a
      failing listing or suite left; the first two texts begin with words of their own. */
  datatype Failure = Missing(rel: Names) | NotRegistered(path: string) | Reported(name: string, text: string)

  const ENV_PREFIX := "ENV-FAIL:"
  const TIMEOUT_PREFIX := "TIMEOUT: "
  const EXEC_PREFIX := "EXEC_ERROR: "

  predicate Env(f: Failure) {
    f.Reported? && StartsWith(f.text, ENV_PREFIX)
  }

  /** `_run_suite`: what it appends to the failures, its fixed sentences cut to their first word. */
  function SuiteFailures(s: Suite): seq<Failure> {
    match s
    case TooSlow => [Reported("(suite)", TIMEOUT_PREFIX)]
    case NotRun(e) => [Reported("(suite)", EXEC_PREFIX + e)]
    case Exited(rc, tail) =>
      if rc == 0 then []
      else if rc == 6 then [Reported("(suite)", ENV_PREFIX + " " + tail)]
      else if rc == 124 then [Reported("(suite)", TIMEOUT_PREFIX + tail)]
      else [Reported("(suite)", tail)]
  }

  function MissingOf(tree: Tree, declared: seq<Names>): (r: seq<Failure>)
    ensures r == [] <==> forall rel | rel in declared :: Exists(tree, [], rel)
    ensures forall f | f in r :: f.Missing?
    ensures forall rel :: Missing(rel) in r <==> rel in declared && !Exists(tree, [], rel)
  {
    if declared == [] then [] else
      var last := declared[|declared| - 1];
      MissingOf(tree, declared[..|declared| - 1]) + if Exists(tree, [], last) then [] else [Missing(last)]
  }

  function UnlistedOf(accepts: seq<string>, tests: seq<string>): (r: seq<Failure>)
    ensures r == [] <==> forall rel | rel in accepts :: rel in tests
    ensures forall f | f in r :: f.NotRegistered?
    ensures forall path :: NotRegistered(path) in r <==> path in accepts && path !in tests
  {
    if accepts == [] then [] else
      var last := accepts[|accepts| - 1];
      UnlistedOf(accepts[..|accepts| - 1], tests) + if last in tests then [] else [NotRegistered(last)]
  }

  /** The failures of one verification, in the order they are found. */
  function Failures(tree: Tree, declared: seq<Names>, accepts: seq<string>, l: Listing, s: Suite): seq<Failure> {
    if l.ListRaised? then [Reported("(no tests)", "run.sh list failed")]
    else
      var contract := MissingOf(tree, declared) + UnlistedOf(accepts, l.tests);
      var listing := if l.rc != 0 then [Reported("(list)", l.tail)] else [];
      if l.tests == [] then
        if contract + listing != [] then contract + listing
        else [Reported("(no tests)", "The project runner declares no tests")]
      else contract + listing + SuiteFailures(s)
  }

  /** Every condition of an accepted turn. */
  ghost predicate Green(tree: Tree, declared: seq<Names>, accepts: seq<string>, l: Listing, s: Suite) {
    && (forall rel | rel in declared :: Exists(tree, [], rel))
    && l.Listed? && l.rc == 0 && l.tests != [] && (forall rel | rel in accepts :: rel in l.tests)
    && s.Exited? && s.rc == 0
  }

  /** The listing printed tests, so the suite is run. */
  predicate SuiteRuns(l: Listing) {
    l.Listed? && l.tests != []
  }

  /** A failure reads as an environment failure: the suite's code 6, and also any other failing listing
      or suite whose output happens to begin with the same word. */
  predicate ReadsAsEnv(l: Listing, s: Suite) {
    SuiteRuns(l) && (SuiteReadsAsEnv(s) || (l.rc != 0 && StartsWith(l.tail, ENV_PREFIX)))
  }

  predicate SuiteReadsAsEnv(s: Suite) {
    s.Exited? && s.rc != 0 && s.rc != 124 && (s.rc == 6 || StartsWith(s.tail, ENV_PREFIX))
  }

  /** `verify_gate`. The sort of the failures at its end changes no verdict and is not kept. */
  method VerifyGate(tree: Tree, declared: seq<Names>, accepts: seq<string>, l: Listing, s: Suite)
    returns (ok: bool, failures: seq<Failure>, envFail: bool, ran: bool)
    ensures failures == Failures(tree, declared, accepts, l, s)
    ensures ok <==> Green(tree, declared, accepts, l, s)
    ensures envFail <==> ReadsAsEnv(l, s)
    ensures ran <==> SuiteRuns(l)
  {
    hide Exists, StartsWith, SuiteReadsAsEnv, MissingOf, UnlistedOf, Green, Env, SuiteFailures, ReadsAsEnv;
    hide Failures;
    EnvNeedsSuite(l, s);
    FailuresOf(tree, declared, accepts, l, s);
    NoneYet(tree, l);
    GreenIsNoFailure(tree, declared, accepts, l, s);
    failures := [];
    for i := 0 to |declared|
      invariant failures == MissingOf(tree, declared[..i])
    {
      MissingSnoc(tree, declared, i);
      if !Exists(tree, [], declared[i]) {
        failures := failures + [Missing(declared[i])];
      }
    }
    assert declared[..|declared|] == declared;
    if l.ListRaised? {
      return false, [Reported("(no tests)", "run.sh list failed")], false, false;
    }
    ghost var missing := failures;
    for i := 0 to |accepts|
      invariant failures == missing + UnlistedOf(accepts[..i], l.tests)
    {
      UnlistedSnoc(accepts, l.tests, i);
      if accepts[i] !in l.tests {
        failures := failures + [NotRegistered(accepts[i])];
      }
    }
    assert accepts[..|accepts|] == accepts;
    ghost var contract := failures;
    if l.tests == [] {
      if l.rc != 0 {
        return false, failures + [Reported("(list)", l.tail)], false, false;
      }
      if failures != [] {
        return false, failures, false, false;
      }
      return false, [Reported("(no tests)", "The project runner declares no tests")], false, false;
    }
    if l.rc != 0 {
      failures := failures + [Reported("(list)", l.tail)];
    }
    failures := failures + SuiteFailures(s);
    EnvAmong(contract, l, s);
    ok, envFail, ran := failures == [], exists f :: f in failures && Env(f), true;
  }

  /** The failures case by case, as the gate meets them. */
  lemma FailuresOf(tree: Tree, declared: seq<Names>, accepts: seq<string>, l: Listing, s: Suite)
    ensures var all := Failures(tree, declared, accepts, l, s);
            if l.ListRaised? then all == [Reported("(no tests)", "run.sh list failed")]
            else
              var contract := MissingOf(tree, declared) + UnlistedOf(accepts, l.tests);
              if l.tests != [] then
                all == contract + (if l.rc != 0 then [Reported("(list)", l.tail)] else []) + SuiteFailures(s)
              else if l.rc != 0 then all == contract + [Reported("(list)", l.tail)]
              else if contract != [] then all == contract
              else all == [Reported("(no tests)", "The project runner declares no tests")]
  {
    hide MissingOf, UnlistedOf, SuiteFailures;
  }

  lemma EnvNeedsSuite(l: Listing, s: Suite)
    ensures ReadsAsEnv(l, s) ==> SuiteRuns(l)
  {
  }

  lemma NoneYet(tree: Tree, l: Listing)
    ensures MissingOf(tree, []) == [] && (l.Listed? ==> UnlistedOf([], l.tests) == [])
  {
  }

  lemma MissingSnoc(tree: Tree, declared: seq<Names>, i: nat)
    requires i < |declared|
    ensures MissingOf(tree, declared[..i + 1])
            == MissingOf(tree, declared[..i]) + if Exists(tree, [], declared[i]) then [] else [Missing(declared[i])]
  {
    assert declared[..i + 1][..i] == declared[..i];
  }

  lemma UnlistedSnoc(accepts: seq<string>, tests: seq<string>, i: nat)
    requires i < |accepts|
    ensures UnlistedOf(accepts[..i + 1], tests)
            == UnlistedOf(accepts[..i], tests) + if accepts[i] in tests then [] else [NotRegistered(accepts[i])]
  {
    assert accepts[..i + 1][..i] == accepts[..i];
  }

  /** The paths named among the failures are exactly the missing declared and the unlisted accept paths. */
  lemma FailuresName(tree: Tree, declared: seq<Names>, accepts: seq<string>, l: Listing, s: Suite)
    requires l.Listed?
    ensures var all := Failures(tree, declared, accepts, l, s);
            && (forall rel :: Missing(rel) in all <==> rel in declared && !Exists(tree, [], rel))
            && (forall path :: NotRegistered(path) in all <==> path in accepts && path !in l.tests)
  {
    hide Exists, MissingOf, UnlistedOf, SuiteFailures;
    SuiteReports(s);
  }

  lemma SuiteReports(s: Suite)
    ensures forall f | f in SuiteFailures(s) :: f.Reported?
  {
  }

  /** No failure is recorded exactly when every condition holds. */
  lemma GreenIsNoFailure(tree: Tree, declared: seq<Names>, accepts: seq<string>, l: Listing, s: Suite)
    ensures Failures(tree, declared, accepts, l, s) == [] <==> Green(tree, declared, accepts, l, s)
  {
    hide Exists;
  }

  lemma EnvAmong(contract: seq<Failure>, l: Listing, s: Suite)
    requires SuiteRuns(l) && forall f | f in contract :: !f.Reported?
    ensures var listing := if l.rc != 0 then [Reported("(list)", l.tail)] else [];
            (exists f :: f in contract + listing + SuiteFailures(s) && Env(f)) <==> ReadsAsEnv(l, s)
  {
    hide StartsWith, SuiteReadsAsEnv;
    var listing := if l.rc != 0 then [Reported("(list)", l.tail)] else [];
    var all := contract + listing + SuiteFailures(s);
    assert forall f :: f in all <==> f in contract || f in listing || f in SuiteFailures(s);
    NothingRun(s);
    if SuiteFailures(s) != [] {
      var f := SuiteFailures(s)[0];
      assert SuiteFailures(s) == [f] && f in all;
      SuitePrefix(s);
    }
    var g := Reported("(list)", l.tail);
    assert forall f :: f in listing <==> l.rc != 0 && f == g;
    assert l.rc != 0 ==> g in all && (Env(g) <==> StartsWith(l.tail, ENV_PREFIX));
  }

  /** Such a suite fails with code 1, and its output begins with the environment's word: in any tree the
      verification records an environment failure. */
  lemma FailingTestReadsAsEnv(tree: Tree, declared: seq<Names>, accepts: seq<string>, tests: seq<string>, tail: string)
    requires tests != []
    ensures var l, s := Listed(0, tests, ""), Exited(1, ENV_PREFIX + tail);
            ReadsAsEnv(l, s) && exists f :: f in Failures(tree, declared, accepts, l, s) && Env(f)
  {
    var l, s := Listed(0, tests, ""), Exited(1, ENV_PREFIX + tail);
    hide Failures, SuiteFailures, MissingOf, UnlistedOf, Env, Exists;
    FailuresOf(tree, declared, accepts, l, s);
    EnvAmong(MissingOf(tree, declared) + UnlistedOf(accepts, tests), l, s);
  }

  lemma NothingRun(s: Suite)
    ensures |SuiteFailures(s)| <= 1 && (SuiteFailures(s) == [] ==> !SuiteReadsAsEnv(s))
  {
  }

  lemma SuitePrefix(s: Suite)
    requires SuiteFailures(s) != []
    ensures Env(SuiteFailures(s)[0]) <==> SuiteReadsAsEnv(s)
  {
    var text := SuiteFailures(s)[0].text;
    assert TIMEOUT_PREFIX[0] == 'T' && EXEC_PREFIX[1] == 'X' && ENV_PREFIX[0] == 'E' && ENV_PREFIX[1] == 'N';
    if s.TooSlow? || (s.Exited? && s.rc == 124) {
      assert text[0] == TIMEOUT_PREFIX[0];
      Differs(text, ENV_PREFIX, 0);
    } else if s.NotRun? {
      assert text[1] == EXEC_PREFIX[1];
      Differs(text, ENV_PREFIX, 1);
    } else if s.rc == 6 {
      assert text == ENV_PREFIX + (" " + s.tail);
    }
  }
}
