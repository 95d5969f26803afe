# stanok launcher: a Dafny model

stanok runs a ticket through a coding agent in a Kubernetes Pod and decides, on the host, whether the
agent's patch may land. This project models that launcher and proves what its verdicts are worth: which
patches pass the gate, what a run may publish, when the live tree changes and to what, what is left in the
cluster, what a waiting process may read, and that evidence survives its way out of the Pod.

The outside is left free. Git, kubectl, the model and other processes are answers a run is given
(`HostSpec.Env`, `Session.Run`) or deeds of others between any two steps (`World.Outside`). Git applies a
patch as a partial function on trees and a commit fixes its tree; everything else about it is open.

A host run is a program over a mutable world (`HostRun`). Its methods are proved to do what the functions of
`HostSpec` say, and `HostLaws` proves of those functions what holds of every run.

| file | part of the launcher |
|---|---|
| `Text`, `Utf8`, `Base64`, `FileTree` | strings, strict and lenient UTF-8, the encoding, a directory tree with symlinks |
| `GitQuote`, `PatchGate` | `patchgate.py`: git's quoting and the gate |
| `StructuredPatch`, `GateSoundness` | patches as sections, their text, and what the gate decides about them |
| `GateMeaning` | what the gate's verdict says about any text and any path listing |
| `TicketHeader`, `HeaderMeaning`, `Carveout`, `Contract`, `TicketGate` | `ticket.py`, `ticketcheck.py`, the manifests of `verify.py` |
| `Verdicts`, `EvidenceDir`, `World` | what a run publishes, its files, the repository and the cluster around it |
| `HostSpec`, `HostRun`, `HostLaws` | `k8s.py`: a run as functions, as a program, and what holds of it |
| `HostWitness`, `HostCase` | concrete runs that show where a promise ends |
| `Waiter` | `cli.py`: the marker protocol beside a running launcher |
| `Framing`, `Payload` | `payload.py` |
| `Turn`, `Verification`, `Session` | `session.py`, `verify_gate` |
| `Opik`, `Observation` | the two bounded loops |
| `EndToEnd` | the parts joined |

## What does not hold as promised, and exactly when it does

- **The gate and what git does not print.** An accepted patch is safe if and only if no section is a rename or
  copy whose source begins with a space and is printed bare (the decoder strips it), and none is a rename or
  copy of a symlink or gitlink that changes neither content nor mode (git then prints no mode line).
  `GateSoundness.GateSoundness`; both families are accepted (`GateSoundness.HiddenRenameAccepted`).
- **A bare zone can be declared.** `src` is refused, `src/.` is not (`Carveout.ZoneItself`, `Carveout.DottedZoneAccepted`).
- **Freedom from the begin marker is not enough.** Output before the block that ends in the marker up to its
  last one or two characters makes the host read a different block (`Framing.BlockOfPrinted`,
  `Framing.MarkerCutShort`).
- **The archive allowance covers 1024 members**, and no more: for every larger count some payload inside the cap
  is refused (`Payload.AllowanceExact`, `Payload.OneMemberTooMany`).
- **A waiter can see `dead` on a run in progress.** It does so exactly where the marker does not carry the
  launcher's own process id: opened and not yet written, or keeping the id an earlier process left in it, as
  launcher/cli.py:79-91 does (`Waiter.DeadExactly`, with the two traces `Waiter.EmptyMarkerReadsDead` and
  `Waiter.ForeignPidReadsDead`).
- **An environment failure is not only code 6.** A failing suite or listing whose output begins with
  `ENV-FAIL:` is classified the same way (`Verification.VerifyGate`, third clause,
  `Verification.FailingTestReadsAsEnv`).
- **A create that times out after the server did it** leaves its object behind: an object of the run's stays in
  the cluster exactly if its create was tried, made it, and was not answered (`HostLaws.ClusterFrame`).
- **The two aborts after the marker is written** (launcher/k8s.py:797-806) leave the marker, so a waiter never
  sees such a run as done (`Waiter.WaiterSafety`, second clause).
- **The snapshot is of the live tree, the transported tree is HEAD's.** A landed tree keeps the contract with the
  snapshot. It keeps the contract of the transported tree whenever the snapshot does and declares none of its
  protected files, and no weaker condition on the snapshot would do (`Contract.SnapshotExactly`,
  `EndToEnd.LandedKeeps`). It is met when the ticket was admitted, and the snapshot taken, on the transported
  tree. A live edit that stood only at the snapshot lands a changed protected test (`HostCase.DirtySnapshotLands`).
- **The fresh Job's patch is not checked against the hash.** It is given what the staged file holds at the upload,
  which is the payload's patch exactly if, at the two occasions between identity check and upload, others leave
  the file alone or the last to change it puts the patch back (`HostLaws.FreshExactly`); a run whose green check saw other bytes lands its patch (`HostCase.OtherBytesChecked`).
- **A worker summary with rc 0 and verifier FAIL still lands its patch.** What lands is published as a pass exactly
  if the worker's verifier is PASS and its probe is not NO-OP-PASS (`HostLaws.LandedPassExactly`,
  `HostCase.NonPassLands`).
- **A fresh Job that never completed can count as green**: exactly with no cause named, exit code 0 and a log that
  reads as no error (`HostLaws.FreshExactly`, `HostCase.UncompletedCheckLands`).
- **A launch can report that its child stalled** although the child has finished and left a summary: at any moment
  without a marker (`Waiter.StallsAnytime`).
- **A run that publishes nothing leaves an earlier pass to be read.** A pass the run did not earn can be read beside
  it exactly if it stood there before and the run got no payload, raised, or was refused before its marker where
  no live process holds the one it found (`EndToEnd.UnearnedExactly`, `HostCase.NothingDelivered`). Where no pass
  stood before, every pass read was earned (`EndToEnd.PassesEarned`). The launch moves old evidence away only where
  no marker stands (launcher/summary.py:291-293).
- **Negative retries.** With `--local-retries` below -1 a session publishes a negative turn count and records no turn
  (`Session.SessionGuarantees`, last clauses).

## Assumed

HEAD never returns to a commit it has left (`World.Moved`); the last identity check, the drift check and the
apply are one step (`HostSpec.LiveApply`); nothing happens between reading the staged file for the upload and
the create that carries it; a digest stands for the bytes it was computed from; a worker summary is a JSON object with
an integer `rc`; there is one run per label and nothing interrupts it; others leave this run's objects alone and
deletes return; a payload's compression and archive formats lose nothing (`Payload.Lossless`); time passes only
inside calls and sleeps. Strings that Python holds with surrogate escapes are represented by their bytes.

## Model

| member | source | states |
|---|---|---|
| `GateSoundness.GateSoundness` | launcher/patchgate.py:167-225 | for every printable patch, acceptance means every section is safe if and only if none is of the two kinds the text hides |
| `GateSoundness.GateDecides` | launcher/patchgate.py:184-225 | the scan of the rendered text accepts exactly when every section is accepted alone: no hunk line fakes or hides a header |
| `GateSoundness.SectionRule` | launcher/patchgate.py:195-220 | a section is accepted exactly when its path, its endpoints and its printed modes are clean |
| `GateSoundness.SectionSafety` | launcher/patchgate.py:152-220 | an accepted section is safe exactly when it is neither a blank-source nor a silent link section |
| `GateSoundness.JudgeDecides` | launcher/patchgate.py:47-64 | the path and zone rules together accept exactly the relative paths under a writable zone with no `..` and no `.git` component |
| `GateSoundness.HiddenRenameAccepted` | launcher/patchgate.py:201-220 | every pure rename between confined paths is accepted, whatever its mode and whatever spaces stand before its source |
| `GateSoundness.HiddenRenameSafety` | launcher/patchgate.py:201-220 | such a rename is safe exactly without those spaces and with an ordinary mode |
| `GateSoundness.UnsafeRenamesAccepted` | launcher/patchgate.py:201-220 | one concrete unsafe patch of each family that passes |
| `PatchGate.PatchGate` | launcher/patchgate.py:167-225 | the loops compute the gate's specification for any text and any numstat answer, and raise exactly where the decoder does |
| `GateMeaning.GateExactly` | launcher/patchgate.py:167-225 | for every text and every answer of git's parser, nothing is reported exactly if git read the patch, named as many paths as there are header lines, every path is writable and every line clean; it raises exactly where an endpoint cannot be decoded |
| `GateMeaning.LineForms` | launcher/patchgate.py:32-44 | each kind of line by its literal forms, whatever is tried first |
| `GateMeaning.WritableInZone` | launcher/patchgate.py:47-64 | a path in a zone begins with one of the four zone names and a slash and has neither `..` nor `.git` in it |
| `GateMeaning.NumstatExactly` | launcher/patchgate.py:107-149 | the listing is these paths exactly if git answered with code 0 and every record that is not empty has three fields, the third the path |
| `PatchGate.ScanLines` | launcher/patchgate.py:191-220 | the section index never leaves the path list, and the violations come in line order |
| `PatchGate.CountHeaders` | launcher/patchgate.py:184-190 | the number of header lines |
| `PatchGate.JudgePaths` | launcher/patchgate.py:221-224 | every numstat path is judged, in order |
| `PatchGate.ParseNumstat` | launcher/patchgate.py:107-149 | what git's path listing is read as, malformed records and failed calls included |
| `PatchGate.NumstatRoundTrip` | launcher/patchgate.py:107-149 | entries printed with NUL separators come back as exactly their paths, whatever bytes they hold |
| `GitQuote.GitUnquote` | launcher/patchgate.py:67-104 | the index loop computes the specified bytes and ends; an octal above 255 is the only error |
| `GitQuote.UnquoteOfQuoted` | launcher/patchgate.py:67-104 | decoding git's quoting of any byte string gives the bytes back |
| `GitQuote.QuotedPiece` | launcher/patchgate.py:83-100 | one quoted byte is read back alone: no following digit is absorbed, no value passes 255 |
| `GitQuote.OverflowRaises` | launcher/patchgate.py:83-100 | an octal escape above 377, after any quoted text, raises |
| `GitQuote.BareEndpoint` | launcher/patchgate.py:73-78 | a bare path comes back without the spaces at its ends |
| `Utf8.EncodeOfDecode` | launcher/patchgate.py:236-244 | bytes that strict decoding accepts are written out again unchanged |
| `Utf8.DecodeOfEncode` | launcher/patchgate.py:236-244 | every string survives encoding and strict decoding |
| `Utf8.ByteCutKeepsWholeChars` | launcher/verify.py:48-53 | the byte cut keeps exactly the longest prefix of whole characters that fits |
| `Utf8.FittingIsLongest` | launcher/verify.py:48-53 | that prefix is the longest: a prefix fits the limit exactly when it is no longer |
| `TicketHeader.ParseHeader` | launcher/ticket.py:179-241 | the line loop computes the specified header, or refuses on the first malformed header line |
| `HeaderMeaning.LineMeaning` | launcher/ticket.py:179-207 | comments and blank lines, declarations, `none` statements, malformed lines and body lines, each by its own form |
| `HeaderMeaning.ParseMeaning` | launcher/ticket.py:179-241 | the lines up to the first that is no header line are read; it refuses exactly if that one is malformed, else the header is what they declare: entries in order, accept paths once, the two `none` flags |
| `HeaderMeaning.SplitAt` | launcher/ticket.py:183-183 | where a ticket's lines end |
| `TicketHeader.CheckedDeclarations` | launcher/ticketcheck.py:98-136 | the second reader's loop computes its specification |
| `HeaderMeaning.CheckedMeaning` | launcher/ticketcheck.py:98-136 | on any text, what is declared before the first line that is no header line, malformed or not |
| `TicketHeader.OneGrammar` | launcher/ticketcheck.py:98-136 | on every text the parser accepts, the second reader finds the same declarations, edit paths without repeats |
| `TicketHeader.HeaderRoundTrip` | launcher/ticket.py:47-59 | rendered declarations, a line that is no header line and any body parse to exactly those declarations |
| `TicketHeader.DeclaringMeaning` | launcher/ticket.py:179-241 | what is declared: entries in order with repeats, accept paths once each |
| `Carveout.DeclaredCarveout` | launcher/ticket.py:62-123 | the loops compute the carve-out over any tree with symlinks, and end |
| `Carveout.CarveExactly` | launcher/ticket.py:83-123 | a path is declarable exactly if it is relative, does not climb, is no zone's own name, begins with a zone, has no link component, and exists or lies on a way that does; the result is the path or the longest existing directory on the way |
| `Carveout.CarveMeaning` | launcher/ticket.py:94-123 | an accepted path has no link component, resolves to itself under a zone, and yields itself or its nearest existing ancestor in that zone |
| `Carveout.ZoneItself` | launcher/ticket.py:94-123 | an accepted path names nothing below its zone exactly when it is the zone spelled with dots |
| `Carveout.DottedZoneAccepted` | launcher/ticket.py:83-123 | a bare zone spelled with a dot passes |
| `Contract.CompareManifests` | launcher/verify.py:316-353 | both loops together report exactly the specified violations |
| `Contract.EmptyReport` | launcher/verify.py:316-353 | the report is empty exactly when nothing protected changed and nothing undeclared appeared |
| `Contract.ExemptionNeverFires` | launcher/ticket.py:286-348 | no admitted ticket declares a protected file of the tree it was admitted on |
| `Contract.ContractMeaning` | launcher/verify.py:316-353 | for admitted tickets an empty report says every protected file kept its digest and every new file under tests/ or src/ is declared; accept files are protected |
| `Contract.FilesKept` | launcher/verify.py:230-353 | where the comparison of two trees is silent, every undeclared readable file below tests/, the runner script and every stack manifest is a file of the second with the same bytes |
| `Contract.FilesAdded` | launcher/verify.py:262-353 | and every undeclared file of the second below tests/ or src/ was an entry of the first |
| `Contract.ProtectedOnly` | launcher/verify.py:230-260 | nothing else is protected, caches among it |
| `Contract.AdmittedExactly` | launcher/ticket.py:132-352 | an admitted ticket, condition by condition |
| `Contract.EditsUnguarded` | launcher/ticket.py:325-352 | no admitted ticket edits a guarded file |
| `Contract.SnapshotExactly` | launcher/verify.py:316-353 | what compares clean with a snapshot keeps another tree's contract, in every case, exactly when the snapshot itself does and no declared path is protected in that tree |
| `Contract.AcceptProtected` | launcher/ticket.py:244-283 | a canonically spelled accept file is a protected file |
| `TicketGate.GateTicket` | launcher/ticket.py:132-241 | the gate passes exactly the admitted tickets, and passes what they declare |
| `TicketGate.TicketIs` | launcher/ticket.py:208-241 | the declared, edit and accept paths are those of the header's entries |
| `TicketGate.ValidateAccepts` | launcher/ticket.py:244-283 | every accept entry meets all of its conditions, or the ticket is refused |
| `TicketGate.AssertCreatePathsAreNew` | launcher/ticket.py:286-322 | passes exactly when no create path exists |
| `TicketGate.AssertEditPathsAreNotProtected` | launcher/ticket.py:325-352 | passes exactly when no edit path is protected |
| `Verdicts.PublishedAgrees` | launcher/summary.py:118-160 | the published code equals the aligned exit code, and a pass is published exactly for a claimed pass on an intact contract and a green fresh check |
| `Verdicts.ClassifiedExactly` | launcher/aggregate.py:70-92 | a published summary counts as a pass without work, a pass, a timeout or an infrastructure failure, each under its exact condition |
| `EvidenceDir.Evidence.Publish` | launcher/summary.py:56-160 | its file operations, the worker's claim first where the host overrules it, and the verdict that stands after them |
| `World.World.Create` | launcher/kube.py:106-123 | a create reports success exactly when the name was free and the server did it, and then the object is this run's; an object of that name stays as it was |
| `World.TrySound` | launcher/kube.py:106-123 | a create keeps the frame: what stands of the run is what it made and did not delete, and objects of others are theirs |
| `World.RemoveFramed` | launcher/k8s.py:933-940 | so does deleting an object of one's own |
| `HostRun.RunWorker` | launcher/k8s.py:417-434 | the creates in order, each once, none after a failed one; it raises exactly when the last timed out and goes on exactly when all four were reported, and the cleanup's list is what was reported |
| `HostRun.Cleanup` | launcher/k8s.py:933-940 | each object on the list is deleted once, in order, and nothing else; the live tree is left to others |
| `HostRun.FreshCheck` | launcher/k8s.py:277-348 | a result of the Job means this run created the patch map and the Job, with what the staged file held at the upload; otherwise an execution error or a named exception |
| `HostRun.ContractChain` | launcher/k8s.py:571-606 | no violation means the gate passed the decoded text, the staged file held the payload's bytes at the check, and the contract holds on the transported tree with exactly those bytes applied; it raises exactly on an octal escape above 255 |
| `HostRun.ApplyFinalPass` | launcher/k8s.py:630-689 | the staged file lands exactly when it holds the payload's patch, the live tree is the start commit's and git applies it; otherwise the summary becomes ENV-FAIL and the tree stays |
| `HostRun.IssueVerdict` | launcher/k8s.py:880-930 | the returned code is the published one, and what was published is determined by violations, fresh check, landing and claim |
| `HostRun.JudgeDelivery` | launcher/k8s.py:836-930 | every way from a delivered payload to a verdict, a conflict of exit codes, or an exception with what stood behind it |
| `HostRun.Supervise` | launcher/k8s.py:818-930 | every ending of the supervised part: what it tried in the cluster, what it published, and that it raises exactly when its answers or a missing staged file make it |
| `HostRun.EarlyAbort` | launcher/abort.py:44-86 | its exact file operations: a dead marker goes, a summary is written only where none is |
| `HostRun.Admit` | launcher/k8s.py:721-770 | a run goes on exactly with an admitted ticket that declares something or resets nothing, and with kubectl, preflight and image in order |
| `HostRun.TakeSnapshot` | launcher/k8s.py:787-799 | the snapshot is the manifest of the live tree at one state of the repository, the transported tree that of HEAD at a later one |
| `HostRun.HostLaunch` | launcher/k8s.py:696-944 | whole runs: the evidence they leave, their part in the cluster, the one verified move of the live tree, and the states of the repository they were based on |
| `HostLaws.ClusterFrame` | launcher/k8s.py:808-944 | every run: each reported create is deleted exactly once and nothing else is; what stays is exactly an object made and not reported; objects of others stay, and with others idle the cluster is as before, and that object |
| `HostLaws.SupervisedMeans` | launcher/k8s.py:818-930 | each ending of the supervised part and exactly when it is reached, with its operations, creates, cause and fresh check |
| `HostLaws.RaisesExactly` | launcher/k8s.py:818-944 | a run raises exactly when it goes on and a create timed out, an answer raises, or others remove the staged patch right after its identity check |
| `HostLaws.TurnedAwayExactly` | launcher/k8s.py:721-806 | a run is turned away exactly if kubectl, ticket, preflight, image, packing or size fail it, with code 13 for the ticket alone and 16 for the rest |
| `HostLaws.BlankExactly` | launcher/k8s.py:914-917 | a patch without content decodes to blanks only |
| `HostLaws.RecheckedMeans` | launcher/k8s.py:277-348 | the fresh check by what others do to the staged file and how its creates come out: exactly when it raises, is not run, or gives the Job's result |
| `HostLaws.FreshExactly` | launcher/k8s.py:277-348 | over an intact contract the fresh check is an infrastructure failure, code 16, exactly if its Job was not created or did not complete and a Pod cause, a Job cause, exit 20 or an error log was seen; else its code is 0 when completed and the exit code when not; the Job was given the payload's patch exactly if others leave the staged file alone, or put it back, between identity check and upload |
| `HostLaws.ChainedMeans` | launcher/k8s.py:571-606 | the chain finds no violation exactly if gate and contract accept the patch, the scratch directory can be made and the staged file still holds the patch; it raises exactly if the gate does |
| `HostLaws.IssuedMeans` | launcher/k8s.py:880-930 | the summary left standing means what it says |
| `HostLaws.LandedPassExactly` | launcher/k8s.py:914-929 | a landed patch was published as a pass exactly if the worker's verifier passed and not for doing nothing |
| `HostLaws.LandedScratch` | launcher/k8s.py:586-606 | a patch that landed was not blank, so the scratch tree is the transported tree with it applied |
| `HostLaws.LandedIsVerified` | launcher/k8s.py:630-689 | under any deeds of others, landing the staged file leaves the transported tree plus the payload's patch, which is the tree the contract was recomputed on; a run that lands none leaves the live tree to others |
| `HostLaws.LandsExactly` | launcher/k8s.py:914-929 | a run lands its patch exactly if worker, contract chain and fresh check pass it and, when the verdict is issued, the staged file and the live tree are what they were: git never refuses it then |
| `HostLaws.EvidenceSound` | launcher/summary.py:56-160 | every launch: marker first and last, and the summary that stands is a verdict with the returned code, an environment failure, or what stood before |
| `HostWitness.MomentsDecide` | launcher/k8s.py:787-799 | a family of runs that land whatever the snapshot's moment and the upload's moment were |
| `HostCase.DirtySnapshotLands` | launcher/k8s.py:787-799 | a run that publishes a pass and lands a change to a protected test of the transported tree |
| `HostCase.OtherBytesChecked` | launcher/k8s.py:277-348 | a run that lands after a green check of other bytes |
| `HostCase.NonPassLands` | launcher/k8s.py:914-929 | a run that lands a patch its worker's verifier failed |
| `HostCase.UncompletedCheckLands` | launcher/k8s.py:319-348 | a run that lands on a fresh Job that never completed |
| `HostCase.NothingDelivered` | launcher/k8s.py:836-860 | a run without a payload that publishes nothing |
| `EndToEnd.LandedKeeps` | launcher/k8s.py:571-606 | the tree a run lands keeps the contract with its snapshot, and, when the snapshot fits the transported tree, every protected file of that tree with only declared additions; it fits when admission and snapshot saw that tree |
| `EndToEnd.LandedFiles` | launcher/k8s.py:571-606 | between the snapshot's tree and the landed tree, an undeclared guarded file keeps its bytes and an undeclared file below tests/ or src/ was there |
| `EndToEnd.LandingOf` | launcher/k8s.py:571-606 | a run that lands: the patch moves the transported tree, the contract holds on it, and git named one path, all of them writable, for each header line of a text without an unclean line |
| `EndToEnd.LandedPatchSafe` | launcher/k8s.py:571-606 | a landed patch is safe exactly up to the two families the text hides |
| `EndToEnd.PassRead` | launcher/aggregate.py:70-92 | beside every launch, a pass read by a waiter was earned (claimed, contract intact, fresh check 0, no contradicting code, patch blank or landed), or it stood there before a launch that leaves what it finds |
| `EndToEnd.PassesEarned` | launcher/aggregate.py:70-92 | beside a launch that found no pass, every pass read was earned |
| `EndToEnd.UnearnedExactly` | launcher/summary.py:291-293 | an unearned pass can be read exactly if it stood there before a launch that leaves what it finds |
| `EndToEnd.StalePassRead` | launcher/summary.py:291-293 | beside a run that got no payload, raised, or was refused over no live marker, a wait does read what stood there before |
| `EndToEnd.OnePatch` | launcher/k8s.py:506-529 | the judged patch is byte for byte the Pod's, through payload, decoding and re-encoding |
| `Waiter.WaiterSafety` | launcher/cli.py:248-325 | under every interleaving `done`, `missing` and a dead child are reported only after the launcher's last file operation, with the final verdict and with none left; never `done` or `missing` for a run that kept its marker |
| `Waiter.InvStep` | launcher/cli.py:248-325 | every step of either side keeps the waiter's invariant |
| `Waiter.SupervisedIsGuarded` | launcher/k8s.py:900-944 | a marker once in place stays until the run's last operation |
| `Waiter.StallsAnytime` | launcher/cli.py:410-427 | a child without a marker can be reported stalled at any moment, whatever summary stands |
| `Waiter.RefusalSafety` | launcher/cli.py:389-431 | beside a refused launch, a verdict read at any moment is the one that stays |
| `Waiter.DeadExactly` | launcher/cli.py:262-271 | a wait that finds a marker can report a run in progress dead exactly when the marker does not carry the launcher's own id |
| `Waiter.DeadIsOver` | launcher/cli.py:262-271 | once the marker has the launcher's own id, `dead` means it has nothing left to write |
| `Waiter.EmptyMarkerReadsDead` | launcher/cli.py:262-271 | a marker opened and not written reads as dead, with every operation to come |
| `Waiter.ForeignPidReadsDead` | launcher/cli.py:79-91 | so does a marker that kept an earlier process id |
| `Waiter.FinalRead` | launcher/cli.py:262-271 | after the last operation of a run that leaves no marker, a wait reads the summary that stands |
| `Waiter.ReadsExactly` | launcher/cli.py:248-325 | what can be read beside a supervised run at all is that summary, and only without a marker left |
| `Waiter.HeldMarker` | launcher/cli.py:389-431 | beside a launch refused over a live process's marker nothing is read |
| `Waiter.RunInProcess` | launcher/cli.py:46-62 | the in-process path leaves one summary and removes the marker last |
| `Base64.DecodeOfEncode` | launcher/payload.py:108-116 | the lenient decoder gives back every byte string encoded |
| `Base64.EncodeAlphabet` | launcher/payload.py:74-79 | encoded text holds no underscore and no blank, so no marker |
| `Framing.PatternGroup` | launcher/payload.py:168-169 | the stripped text before the first end marker is the group the pattern matches |
| `Framing.BlockFound` | launcher/payload.py:168-171 | the printed block is found first, whatever follows |
| `Framing.BlockOfPrinted` | launcher/payload.py:168-171 | between noise free of the marker the block read is the block printed, exactly when the noise before does not straddle the marker |
| `Framing.MarkerCutShort` | launcher/payload.py:168-171 | the begin marker without its last underscore, printed before the block, is output without a marker that loses the block |
| `Framing.NotExactlyOne` | launcher/payload.py:168-171 | two blocks, or one never closed, give nothing |
| `Payload.BoundedGunzip` | launcher/payload.py:124-138 | for every chunking: the whole stream exactly when it fits and ends cleanly, never more than the limit and one chunk held |
| `Payload.ReadMembers` | launcher/payload.py:180-203 | a map exactly when all names are flat and the bytes, repeats included, fit the cap; the last of a name wins; never more than the cap and one byte held |
| `Payload.ReadExactly` | launcher/payload.py:180-203 | members give a map exactly when file names are flat and all bytes, repeats included, fit 64 MiB; a name has the bytes of its last file |
| `Payload.RefusedMeans` | launcher/payload.py:183-187 | the name guard refuses exactly the names that are not flat |
| `Payload.StructureFits` | launcher/payload.py:52-62 | up to 1024 members, what fits the cap fits the stream budget |
| `Payload.OneMemberTooMany` | launcher/payload.py:52-62 | with any more it need not |
| `Payload.AllowanceExact` | launcher/payload.py:52-62 | the allowance covers every payload of a count inside the cap exactly for counts up to 1024 |
| `Payload.ExtractPayload` | launcher/payload.py:141-203 | the extraction returns its specification: a map, nothing, or an exception of the codecs |
| `Payload.ExtractionExactly` | launcher/payload.py:141-203 | when the extraction gives files, when nothing, and when an exception |
| `Payload.PayloadRoundTrip` | launcher/payload.py:141-203 | what the Pod prints comes back as exactly its files when names are flat, bytes fit the cap and the archive its budget, and as nothing otherwise; up to 1024 files the budget adds nothing |
| `Turn.ExecuteTurn` | launcher/session.py:334-446 | over the messages up to the first trap: calls and writes by kind, successes as replies without error to a waiting call, test fitting as writes after a green suite, the last error and usage |
| `Turn.CountsByPosition` | launcher/session.py:396-440 | every counter is the number of the positions it should count |
| `Turn.ErrorIsLast` | launcher/session.py:365-383 | the error kept is that of the last message with one |
| `Turn.UsageIsLast` | launcher/session.py:356-362 | the usage kept is that of the last message of its sort with one |
| `Turn.BlocksConcat` | launcher/session.py:385-387 | blocks are taken in message order |
| `Turn.BashConservation` | launcher/session.py:396-427 | successes, failures, pending ids and lost calls add up to the Bash calls |
| `Turn.NoFitBeforeGreen` | launcher/session.py:397-409 | test-fit counts stay zero before the first green and never exceed the writes |
| `Verification.VerifyGate` | launcher/verify.py:103-166 | accepted exactly when declared paths exist, accept checks are listed, listing and suite returned 0; when a failure reads as environment; when the suite runs |
| `Verification.FailuresName` | launcher/verify.py:103-166 | the failures name exactly the missing declared and the unlisted accept paths |
| `Verification.FailingTestReadsAsEnv` | launcher/verify.py:57-100 | a suite with code 1 whose output begins with `ENV-FAIL:` is recorded as an environment failure |
| `Verification.GreenIsNoFailure` | launcher/verify.py:103-166 | no failure is recorded exactly when every condition holds |
| `Verification.SuitePrefix` | launcher/verify.py:57-100 | which suite outcomes read as an environment failure |
| `Session.Job.RecordTelemetry` | launcher/session.py:831-911 | one turn is added to the totals and to the record list |
| `Session.Job.ContractLock` | launcher/verify.py:371-423 | the turn is forced to fail exactly when the contract is not intact |
| `Session.Job.PostTurnDecision` | launcher/session.py:668-758 | one turn ends in exactly the verdict its error, contract, environment, verification, writes and Bash successes determine, and runs the suite exactly when it should |
| `Session.Job.TakeTurn` | launcher/session.py:1051-1103 | one pass of the loop: timeouts and exceptions record nothing, a trapped turn is recorded |
| `Session.RunSession` | launcher/session.py:1014-1108 | the job record of every session: its verdict and turn count as specified, totals and records of exactly the finished turns, the suite run at exactly the specified turns |
| `Session.SessionGuarantees` | launcher/session.py:1014-1108 | every session lands in a row of the verdict table within its turns, runs the suite only after clean turns, earns code 0, publishes it as blind exactly without a successful Bash call in all its turns and as clean exactly at turn 1 otherwise, and publishes the number of recorded turns with the named exceptions |
| `Session.EndsExactly` | launcher/session.py:1014-1108 | a session ends with the first turn within the limit that decides it, in the row of that turn's outcome: timeout, exception, trap, dead session, touched contract, environment, pass; else it is used up |
| `Session.SumsAre` | launcher/session.py:831-911 | every total is the sum of its own figure over the finished turns |
| `Session.RecordsAre` | launcher/session.py:831-911 | one record per finished turn, with that turn's own figures |
| `Session.PlayKind` | launcher/session.py:668-758 | from any turn on, the kind of pass a code 0 is |
| `Session.PassesWhen` | launcher/session.py:668-758 | a session ends in a pass exactly when some turn within the limit passes after turns that all left it undecided |
| `Session.PlayIsSound` | launcher/summary.py:303-340 | the same guarantees from any turn on |
| `Opik.SessionTraceCount` | launcher/opik.py:66-87 | the page loop computes the scan's specification for whatever the server answers |
| `Opik.ScanIsCount` | launcher/opik.py:66-87 | over an honest newest-first list the early stop changes nothing: the count is that of the first 20000, and of the whole list exactly when nothing matches behind them |
| `Opik.CountByPosition` | launcher/opik.py:66-87 | the count is the number of positions that hold a trace of the session |
| `Observation.PodOfJob` | launcher/lifecycle.py:42-50 | found exactly with the first answer that names a Pod; without one the deadline has passed; it ends at most one call and one pause after it |
| `Observation.WaitJobTerminal` | launcher/lifecycle.py:175-198 | terminal exactly with the first answer that says so; else the deadline has passed; it ends within one pause and one call of it |
| `Observation.ObserveWorker` | launcher/k8s.py:435-449 | lookup, stream and wait end within deadline, graces and one poll's overshoot, for every timing and every deadline from -63 s |
| `Observation.TimerOrder` | launcher/config.py:73-83 | api timeout < turn timeout < job deadline for every environment value; when the chain stays under the cap |

## Left out

- HostRun.HostLaunch: real git, kubectl, docker, HTTP and clocks are answers of the environment; ignored and untracked files are outside the live tree's comparison; signals and keyboard interrupts.
- HostRun.Cleanup: a delete that itself times out would end the loop early; deletes are taken to return.
- HostRun.ContractChain: failures while the scratch directory is set up are one answer, `scratchMade`.
- HostRun.Supervise: kubectl calls that time out while a Job is watched or classified are one answer each (`watchRaises`, `causeRaises`, `recheck.raises`), not one per call.
- EndToEnd.LandedKeeps: the condition is on the snapshot; a single landing on an unfit snapshot may still keep the contract by luck.
- PatchGate.PatchGate: the gate's messages are kept as data, not as text.
- GateSoundness.GateSoundness: soundness only; a hunk line that looks like a file name line can be rejected.
- Contract.FilesKept: files behind a linked directory below tests/, and files that cannot be read, are not guarded by the source either.
- Contract.CompareManifests: the report is a set; the order of two dictionaries is not kept.
- Verification.VerifyGate: the final sort of the failures and the wording of their texts are not kept.
- Session.RunSession: signals and keyboard interrupts, prompts, hooks and warnings; a turn is its outcome.
- Session.Job.RecordTelemetry: hit rates, elapsed times, live windows and compaction entries are not kept.
- Turn.ExecuteTurn: session ids and the stream file; whether a reply shows a green suite is a parameter.
- Waiter.WaiterSafety: the wait's clock is an open choice between going on and giving up; failures.log is not part of the directory.
- Payload.PayloadRoundTrip: tar and gzip are parameters assumed lossless, for names that fit one header.
- Opik.SessionTraceCount: the list is taken not to change while it is scanned.
- Observation.ObserveWorker: rounding of floats, infinities and NaN, and the cost of code between calls.
- `preflight.py`, `gates.py`, image resolution, peaks, network policy and the report builder: branches settled by reading them.
- Mutual exclusion of host runs: the lock is taken only in the in-process branch.
- Prompt texts, the fix prompt rules and log lines.
