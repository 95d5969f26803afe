/** The published verdict: its values, its last reader and the host's rules over it
    (launcher/verdicts.py:50-67, launcher/aggregate.py:70-92, launcher/summary.py:56-160). */
module Verdicts {
  import opened Text

  datatype Probe =
    | CleanFirst | PassAfterLocalRetry | VerifyFail | EnvFail | NoOpPass | PassBlind
    | LoopTrap | ContractFail | FreshFail | EarlyAbort | Unlisted(text: string)

  datatype Verifier = PASS | FAIL | OtherVerifier(text: string)

  /** The three fields of summary.json that decide; a worker may write any values into them. */
  datatype Summary = Summary(rc: int, verifier: Verifier, probe: Option<Probe>)

  const DEFECT := 1
  const TICKET := 13
  const ENV_FAIL := 16
  const CHILD_DIED := 17
  const TIMEOUT_RC := 124
  const INFRA_RCS: set<int> := {13, 14, 15, 16, 17, 20, 21, 22, 24, 26, 27}

  datatype Outcome = Passed | NoOp | Defect | TimedOut | Infra

  function Classify(s: Summary): Outcome {
    if s.probe == Some(NoOpPass) then NoOp
    else if s.rc == 0 && s.verifier == PASS then Passed
    else if s.rc == TIMEOUT_RC then TimedOut
    else if s.rc in INFRA_RCS then Infra
    else Defect
  }

  /** `write_env_fail_summary`, and the refusal summary of an early abort. */
  const ENV_FAIL_SUMMARY := Summary(ENV_FAIL, FAIL, Some(EnvFail))

  function Refusal(code: int): Summary {
    Summary(code, FAIL, Some(EarlyAbort))
  }

  /** What `_publish_evidence` leaves: a contract violation outranks a failed fresh check, which
      outranks the worker's claims. */
  function Published(worker: Summary, containerRc: int, violated: bool, freshRc: Option<int>): Summary {
    if violated then Summary(if containerRc != 0 then containerRc else DEFECT, FAIL, Some(ContractFail))
    else if freshRc.Some? && freshRc.value != 0 then Summary(freshRc.value, FAIL, Some(FreshFail))
    else worker
  }

  /** The exit code the launcher settles on after publishing, without an infrastructure error. */
  function AlignedRc(workerRc: int, violated: bool, freshRc: Option<int>): int {
    if freshRc.Some? && freshRc.value != 0 then freshRc.value
    else if violated && workerRc == 0 then DEFECT
    else workerRc
  }

  /** The fresh check never runs over a violated contract, and then the exit code and the published
      code agree whatever the worker claimed; a pass is published only for a pass claimed on an
      intact contract and a green fresh check. */
  lemma PublishedAgrees(worker: Summary, violated: bool, freshRc: Option<int>)
    requires violated ==> freshRc.None?
    ensures Published(worker, worker.rc, violated, freshRc).rc == AlignedRc(worker.rc, violated, freshRc)
    ensures Classify(Published(worker, worker.rc, violated, freshRc)) == Passed <==>
            Classify(worker) == Passed && !violated && (freshRc.None? || freshRc.value == 0)
  {
  }

  /** How a published summary counts: by its probe, then by a clean pass, then by its code. */
  lemma ClassifiedExactly(s: Summary)
    ensures Classify(s) == NoOp <==> s.probe == Some(NoOpPass)
    ensures Classify(s) == Passed <==> s.rc == 0 && s.verifier == PASS && s.probe != Some(NoOpPass)
    ensures Classify(s) == TimedOut <==> s.rc == 124 && s.probe != Some(NoOpPass)
    ensures Classify(s) == Infra <==>
            (13 <= s.rc <= 17 || s.rc in {20, 21, 22, 24, 26, 27}) && s.probe != Some(NoOpPass)
  {
  }
}
