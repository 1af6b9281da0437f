# FlintTrade desktop backend: verified model

This project models, in Dafny, the crash-tolerant desktop source guardian of FlintTrade
(`packaging/desktop_backend.py`) and three smaller mechanisms around it: the auth-state migration, the
dependency-audit gate and the browser acceptance evidence. Everything is proved for all inputs, all
runs or all reachable states; `dafny verify dfyconfig.toml` checks the whole project.

The guardian is modelled in layers that compose.

* `PyText`, `RecoveryRecord`, `RecordTransitions`: the text of the recovery record and the cleanup proof,
  and the transitions on them. A transition is described by the durable states it passes through, so
  stopping anywhere in that list is a crash or an I/O error. `RecordDirectory` carries the transitions
  out on mutable files and is proved to pass through exactly those states.
* `Processes`: the operating system, as fork, exit, reparenting, reaping and regrouping steps over
  process generations. A PID is reused by later generations; a start token names one generation of a PID.
* `RecordRuns`: all interleavings of record transitions, crashes and process steps.
* `Ownership`, `Refresh`, `ControlPipe`, `Guardian`: discovery of the owned processes, the fail-closed
  refresh, and the control pipe, as specifications and as loops over mutable state.
* `Containment`, `Custody`, `Validator`, `Signal`: completeness and soundness of discovery under a Linux
  child subreaper, the edge revalidation, and the pidfd kill.
* `GuardianRun`, `ProofRetry`, `PromoteWait`: the bounded waits, and the shutdown path of the guardian as a state machine over all of the above,
  from the first termination call to the release of the workspace lease.
* `Shutdown`: the shutdown coordinator.
* `Archive`, `Webhooks`: the migration. `AuditGate`: the audit gate. `BrowserReport`, `Acceptance`,
  `Evidence`: the acceptance evidence.

Main results: `GuardianRun.ReleaseHistory` and `GuardianRun.LeaseReleaseIsSafe` (lease release over whole
runs), `Containment.ContainmentIsComplete`, `Custody.NeverKillsStranger`, `RecordRuns.RemovedOnlyWhenGone`,
`RecordRuns.ProofNeverMisbound`, `Ownership.Discover` with `Ownership.OwnedSetIsLeast`,
`Signal.SignalReachesOnlyRecorded`, `ControlPipe.ChunkingIsIrrelevant`, `Shutdown.InvokedExactlyWhenDue`,
`Archive.RerunAfterCrash`, `AuditGate.RunGate`, `Acceptance.RunDefault`,
`Evidence.Project`.

Some properties turn out to hold only under a condition, and the condition is proved exact.

* One empty refresh does not prove an empty process tree. On Linux a process that has come to hold a
  still tracked PID is skipped by the final token comparison even when discovery has derived it afresh
  (`packaging/desktop_backend.py:2702-2713`). `Containment.ReusedPidIsSkipped` builds, for every tracked
  PID but the guardian's own, a world in which that happens to a live child of the guardian.
  `Containment.EmptyRefreshProvesEmptyIff` shows that the implication holds in every world and on every
  atomic snapshot if and only if nothing but possibly the guardian was tracked going in. A termination call
  needs two consecutive empty refreshes, and the second one starts with nothing tracked, so
  `Containment.ConfirmedEmpty` does hold for it.
* A refused archival has changed no file, except when it created the temporary itself and then found the
  source replaced or an archive in the place of its link. `Archive.RefusalChangesNothing` states it as an
  equivalence, and that the temporary is then all that is left; `Archive.LateArchiveIsRefused` is a
  concrete case.
* After a crash in the middle of writing the archive temporary, a rerun does not complete: it refuses
  and leaves the files as they are. `Archive.RerunAfterCrash` gives the exact crash points, for a cipher
  no proper prefix of whose ciphertexts decrypts; `Archive.InterruptedWriteIsRefused` is a concrete case.
* A crashed finalisation of a promoted launch cannot be run again once its record is gone, while that of
  a pending launch always can (`RecordTransitions.FinaliseRerunIff`). The proof it may leave behind never
  keeps the next launch from starting (`RecordRuns.NextLaunchCanStart`).

Assumptions, each a stated law of a parameter or a rule of the modelled environment:

* Processes: start tokens differ between generations of one PID; a PID is not reused while it is held or
  names a process group, and a process creates its own group or joins an existing one; orphans are adopted by an ancestor that
  is not above a live subreaper; a pidfd is bound to the generation that holds the PID when it is opened.
* Discovery: the process table is an atomic snapshot, and the edge validator, held fixed during one
  refresh, confirms the edges to live parents that it shows.
* Soundness of discovery (`Custody`): registrations name descendants of the guardian, and no process from
  outside the tree is in a process group that a tree member leads.
* Shutdown of the guardian: from the first termination call on the guardian stays alive and forks nobody
  (`Containment.Quiet`, required of every environment step of `GuardianRun`).
* Records: a transition holds the transition lock. A probe never reports a live recorded process dead, and
  reports a PID as reused or unrelated only while a process that never recorded itself holds it; a group
  is reported dead only when it has no process, and reused only when no recorded generation created it.
* Webhook secrets: encryption under the current scheme is undone by decryption; a legacy token is the base64
  text of a raw token with first byte 0x80, and decrypts to its secret.
* Archival: decryption undoes encryption and no proper prefix of a ciphertext decrypts; exclusive creation
  and hard links fail on an existing target (`CreateExclusive` and `LinkArchive` of
  `Archive.ArchiveDirectory`). Other programs may create files, but do not change those that exist.
* Waiting: a sleep lasts at least as long as requested; for the shared body budget of the browser roles, a
  child process ends within the time it is given.

## Model

| member | source | states |
|---|---|---|
| `PyText.DecimalRoundTrip` | packaging/desktop_backend.py:657-662 | Printing a number and reading it with `int` gives it back, also after `strip`; the numeral is a single word |
| `PyText.LineSplits` | packaging/desktop_backend.py:655-655 | A line ended by any of Python's ASCII line breaks, or by a carriage return with its newline, contributes exactly itself to `splitlines` |
| `PyText.JoinedLines` | packaging/desktop_backend.py:1061-1064 | `splitlines` of lines written one by one gives exactly those lines back |
| `PyText.StripPadded` | packaging/desktop_backend.py:659-664 | `strip` removes exactly the ASCII blanks around a word |
| `PyText.SignedDecimal` | packaging/desktop_backend.py:659-659 | `int` reads a leading sign as one |
| `PyText.JoinedFields` | packaging/desktop_backend.py:2814-2821 | Splitting separator-joined fields gives the fields back |
| `PyText.SplitFields` | packaging/desktop_backend.py:2814-2814 | Joining split fields gives the text back, and no field holds the separator |
| `RecoveryRecord.PrintedLines` | packaging/desktop_backend.py:1061-1064 | A printed record is ASCII and splits into exactly its six fields |
| `RecoveryRecord.RecordRoundTrip` | packaging/desktop_backend.py:649-722 | Parsing a created or promoted record yields exactly its PIDs, boot id and token, with containment set |
| `RecoveryRecord.PrintInjective` | packaging/desktop_backend.py:1636-1640 | Two records are byte-equal if and only if all five fields are equal, so finalisation's comparison identifies one launch |
| `RecoveryRecord.ProofRoundTrip` | packaging/desktop_backend.py:617-629 | The proof parser returns a token if and only if the payload is the printed proof of that valid token |
| `RecoveryRecord.ValidHexIff` | packaging/desktop_backend.py:182-187 | An identity is valid if and only if it is an even number of hexadecimal digits within the bounds |
| `RecoveryRecord.V3RoundTrip` | packaging/desktop_backend.py:664-688 | A v3 record parses to its fields, without containment |
| `RecoveryRecord.V2RoundTrip` | packaging/desktop_backend.py:689-702 | A v2 record parses to its fields, without boot id and containment |
| `RecoveryRecord.V1RoundTrip` | packaging/desktop_backend.py:704-713 | Three lines parse to guardian, shell and token in this order |
| `RecoveryRecord.BareRoundTrip` | packaging/desktop_backend.py:715-720 | Two lines parse to guardian and shell in this order |
| `RecoveryRecord.AcceptedIsWellFormed` | packaging/desktop_backend.py:649-722 | Whatever parses is ASCII of two, three, five or six lines with positive PIDs and valid identities, and only current six-line records claim containment |
| `RecordTransitions.TransitionsKeepTokenBound` | packaging/desktop_backend.py:1291-1345 | In every durable state of every transition, a proof is an exact proof and carries the token of the record beside it |
| `RecordTransitions.RecordAppearsProofFree` | packaging/desktop_backend.py:1067-1096 | Only creation makes a record appear, it is the pending record of that launch, and no proof exists at that moment |
| `RecordTransitions.RecordKeptOrRemoved` | packaging/desktop_backend.py:1107-1221 | Apart from creation and promotion no transition alters a record; it stays or is removed |
| `RecordTransitions.ValidLaunchIff` | packaging/desktop_backend.py:1048-1056 | A launch identity is valid if and only if it has a positive shell PID, 16 to 512 hexadecimal digits of even number as boot id and 64 as token |
| `RecordTransitions.CreateSucceedsIff` | packaging/desktop_backend.py:1036-1104 | Creation succeeds if and only if the launch identity is valid and there is no record and no malformed proof; it ends with the pending record alone, and otherwise changes nothing |
| `RecordTransitions.ClearSparesPromoted` | packaging/desktop_backend.py:1174-1221 | Clearing leaves every promoted record untouched, whoever promoted it |
| `RecordTransitions.PromoteCreated` | packaging/desktop_backend.py:1107-1171 | Promoting a created record succeeds, and the parsed record changes in its application field only |
| `RecordTransitions.OwnPendingOfPrinted` | packaging/desktop_backend.py:1141-1156 | A printed record is recognised as its own pending one exactly by the launch that printed it while unpromoted |
| `RecordTransitions.PaddedPending` | packaging/desktop_backend.py:1141-1156 | Blanks around version, guardian and application field do not keep promotion from recognising a pending record, and do keep publication from proving it |
| `RecordTransitions.PublishPrintedIff` | packaging/desktop_backend.py:1291-1345 | A guardian can prove a record if and only if it is its own launch's, pending or promoted to its own application; only the proof changes |
| `RecordTransitions.LaunchCycle` | packaging/desktop_backend.py:1036-1171 | Create, promote, publish and finalise compose: all succeed and leave neither record nor proof |
| `RecordTransitions.FinalisePromotedIff` | packaging/desktop_backend.py:1583-1737 | Finalising a promoted launch succeeds if and only if its PIDs are positive and neither the shell's nor the caller's, record and proof are this launch's exact bytes and both liveness rounds saw nobody; otherwise nothing changes |
| `RecordTransitions.FinalisePendingIff` | packaging/desktop_backend.py:1651-1737 | Finalising a pending launch tolerates an absent record and an absent proof, and refuses any foreign one, any live guardian and any PID of the shell or the caller |
| `RecordTransitions.RemovalIsRecordFirst` | packaging/desktop_backend.py:1729-1734 | During removal no state keeps the record without its proof, and success leaves neither |
| `RecordTransitions.FinaliseRerunIff` | packaging/desktop_backend.py:1651-1737 | A finalisation that crashed anywhere succeeds when run again if and only if the launch was pending or the record is still there; once the record is gone the next launch can be created |
| `RecordTransitions.RecoverIff` | packaging/desktop_backend.py:893-988 | A record of any version is recovered if and only if a proof beside it carries its token, shell, guardian and application are observed dead, reused or unrelated, and, if contained, both groups are dead or reused or their leader's PID is; otherwise nothing changes |
| `RecordTransitions.RecoverPrintedIff` | packaging/desktop_backend.py:913-966 | For a printed record: a dead launch is recovered, and a live or unknown process or containment group keeps the record |
| `RecordTransitions.RecoverNothing` | packaging/desktop_backend.py:882-891 | Without a record that parses, recovery removes at most an orphaned exact proof |
| `RecordTransitions.RecordDirectory.ReconcileOrphanedProof` | packaging/desktop_backend.py:632-646 | Removes a left-over exact proof, refuses a malformed one and leaves the record alone |
| `RecordTransitions.RecordDirectory.CreatePending` | packaging/desktop_backend.py:1036-1104 | Passes through exactly the durable states of the creation plan, and returns its result |
| `RecordTransitions.RecordDirectory.PromoteApplication` | packaging/desktop_backend.py:1133-1163 | One locked attempt passes through exactly the durable states of the promotion plan |
| `PromoteWait.PromoteWithWait` | packaging/desktop_backend.py:1107-1171 | The whole polling loop: bounded attempts, waiting only while no record exists and time is left, and the first attempt with a record promotes it if and only if it is this launch's pending one |
| `PromoteWait.ClockAdvances` | packaging/desktop_backend.py:1129-1168 | After k attempts that all waited the clock is k - 1 pauses on |
| `RecordTransitions.RecordDirectory.Clear` | packaging/desktop_backend.py:1174-1221 | Passes through exactly the durable states of clearing |
| `RecordTransitions.RecordDirectory.PublishProof` | packaging/desktop_backend.py:1291-1345 | Passes through exactly the durable states of publication |
| `RecordTransitions.RecordDirectory.FinaliseCleanup` | packaging/desktop_backend.py:1583-1737 | Passes through exactly the durable states of finalisation, record first |
| `RecordTransitions.RecordDirectory.RecoverStale` | packaging/desktop_backend.py:847-992 | Passes through exactly the durable states of stale recovery, record first |
| `Processes.GoneForever` | packaging/desktop_backend.py:1475-1479 | A generation that holds no PID any more never comes back, whoever reuses its PID |
| `Processes.HoldsBetween` | packaging/desktop_backend.py:2911-2930 | A generation that holds its PID at two moments held it at every moment between |
| `Processes.TokenNamesGeneration` | packaging/desktop_backend.py:2328-2357 | A PID and a start token name at most one generation |
| `Processes.ReusedPidEndsGroup` | packaging/desktop_backend.py:942-960 | Somebody else under a generation's PID means that nobody is left in the group it created |
| `RecordRuns.StepKeepsInv` | packaging/desktop_backend.py:847-992 | Every transition, stopped after any durable write, keeps the record tied to the generations that wrote it and the proof tied to the record |
| `RecordRuns.FinaliseRemoval` | packaging/desktop_backend.py:1651-1737 | When finalisation unlinks a record, every generation that ever held its guardian or application PID before the call is gone at that moment |
| `RecordRuns.FinalisedIsProved` | packaging/desktop_backend.py:1700-1734 | Finalisation removes a promoted record only beside its exact proof |
| `RecordRuns.RecoverRemoval` | packaging/desktop_backend.py:890-992 | When stale recovery with sound probes unlinks a record, every generation that recorded itself under its PIDs is gone at that moment |
| `RecordRuns.RecoverLeavesNoGroup` | packaging/desktop_backend.py:942-981 | When stale recovery unlinks a record, nobody is left in a group created by a generation recorded under its PIDs |
| `RecordRuns.PromotedRemovalIsSafe` | packaging/desktop_backend.py:1583-1737 | Whoever wrote it, a promoted record changes only by removal, only through finalisation beside its proof or through recovery, and every generation recorded under its PIDs is gone at the unlink |
| `RecordRuns.RemovedOnlyWhenGone` | packaging/desktop_backend.py:847-992 | In every run with crashes and PID reuse, from whatever record it started, the same for every promoted record on disk, at the unlink and at every later moment |
| `RecordRuns.RecoveredGroupsAreGone` | packaging/desktop_backend.py:942-981 | In every run those groups are empty at the unlink and stay empty |
| `RecordRuns.RecordHasOwner` | packaging/desktop_backend.py:1036-1171 | In a run that starts without a record, every record shows the PIDs of the guardian that created it and of the application that promoted it |
| `RecordRuns.OwnersGoneOnRemoval` | packaging/desktop_backend.py:847-992 | The very guardian and application that wrote a promoted record are gone when it is unlinked, and ever after |
| `RecordRuns.RemovalIsReachable` | packaging/desktop_backend.py:1036-1737 | A run from nothing that creates, promotes, proves and finalises a launch exists, so the removal results are not vacuous |
| `RecordRuns.ProofNeverMisbound` | packaging/desktop_backend.py:1262-1345 | In every reachable state a proof beside a v4 record carries its token, and a record appears only where no proof is |
| `RecordRuns.ProvedUntilRemoved` | packaging/desktop_backend.py:1729-1734 | In every run a proof beside a record stays there, byte for byte, until the record is gone |
| `RecordRuns.NextLaunchCanStart` | packaging/desktop_backend.py:1067-1104 | In every reachable state without a record, whatever crashes left, the next launch creates its record and ends with that record alone |
| `Ownership.OwnedSetIsLeast` | packaging/desktop_backend.py:2541-2615 | The set of processes with a derivation chain to a seed is closed under the seven ownership rules, written out on row fields, and contained in every set that is |
| `Ownership.FollowsIsDerivable` | packaging/desktop_backend.py:2591-2614 | Every row the expansion loop adds has a derivation chain |
| `Ownership.QuietIsClosed` | packaging/desktop_backend.py:2584-2615 | When a pass finds nothing new the owned set is closed under the rules |
| `Ownership.SeedTracked` | packaging/desktop_backend.py:2552-2558 | Seeds exactly the tracked processes whose row matches their token |
| `Ownership.SeedChildren` | packaging/desktop_backend.py:2559-2572 | Adds every validated guardian child, and only derivable processes |
| `Ownership.Sweep` | packaging/desktop_backend.py:2586-2614 | One pass adds only derivable rows, grows when it reports a change, and otherwise leaves nothing that follows |
| `Ownership.Discover` | packaging/desktop_backend.py:2541-2615 | Terminates and owns exactly the derivable processes, which `OwnedSetIsLeast` shows to be the least closed set, with exact tokens and unique ids, in every iteration order |
| `Refresh.VerifiedIsKept` | packaging/desktop_backend.py:2661-2674 | A tracked process verified under its token or unique id is tracked afterwards under the token just read |
| `Refresh.NeverDropsSameGeneration` | packaging/desktop_backend.py:2659-2721 | A tracked process that is alive but missing, sampled or read under its own token, or unreadable (which a unique identity without a sampled token is) is never dropped |
| `Refresh.SampledRefreshIff` | packaging/desktop_backend.py:2659-2721 | On natively sampled rows, exactly which PIDs are tracked after a refresh, and under which token |
| `Refresh.SampledNeverFails` | packaging/desktop_backend.py:2701-2709 | On natively sampled rows a refresh cannot fail on an unreadable new process |
| `Refresh.GroupsAreLed` | packaging/desktop_backend.py:2676-2721 | Every group tracked after a refresh has its leader in the table and was tracked before or is led by a discovered, now tracked process |
| `Refresh.SampledGroupsIff` | packaging/desktop_backend.py:2676-2721 | On natively sampled rows, exactly which groups are tracked after a refresh, and under which token |
| `Refresh.LinuxStart` | packaging/desktop_backend.py:2552-2582 | On a Linux table, exactly which processes are owned from the start |
| `Refresh.LinuxEdge` | packaging/desktop_backend.py:2591-2614 | On a Linux table, exactly to which processes ownership spreads |
| `Refresh.StrangerIsSkipped` | packaging/desktop_backend.py:2702-2713 | Where the only process to discover holds a PID still tracked under another token, the refresh comes back empty |
| `Guardian.OwnershipState.VerifyTracked` | packaging/desktop_backend.py:2659-2674 | Splits the tracked processes into verified and retained ones as specified, in any iteration order |
| `Guardian.OwnershipState.VerifyGroups` | packaging/desktop_backend.py:2676-2690 | Keeps exactly the groups whose leader is verified or unreadable, and binds verified leaders |
| `Guardian.OwnershipState.BindDiscovered` | packaging/desktop_backend.py:2700-2721 | Binds the discovered processes as specified and fails exactly on an unreadable new one |
| `Guardian.OwnershipState.RefreshOwned` | packaging/desktop_backend.py:2618-2721 | The whole new ownership state after one refresh; a failed one leaves the tracked processes as they were |
| `ControlPipe.Consume` | packaging/desktop_backend.py:2799-2837 | The unfinished rest never contains a newline |
| `ControlPipe.ConsumeSplit` | packaging/desktop_backend.py:2799-2837 | Consuming a stream in two pieces equals consuming it whole |
| `ControlPipe.ChunkingIsIrrelevant` | packaging/desktop_backend.py:2799-2872 | Any cut of the stream into payloads gives the same tracked set, ids, flags and rest as one payload |
| `ControlPipe.RegistrationDecodes` | packaging/desktop_backend.py:3385-3394 | A registration line is decoded to exactly its PID, token and unique id, tracked precisely when the token is still current |
| `ControlPipe.LineIsConsumed` | packaging/desktop_backend.py:2809-2837 | A complete line is applied first and consumption goes on with what follows it |
| `ControlPipe.RegistrationIsConsumed` | packaging/desktop_backend.py:3385-3394 | A registration as sent, newline included and in front of any further bytes, has exactly its effect before the rest is consumed |
| `ControlPipe.RegistrationText` | packaging/desktop_backend.py:2814-2836 | Every line of the registration form, whatever its numbers look like, has exactly the stated effect |
| `ControlPipe.ForceIsConsumed` | packaging/desktop_backend.py:2811-2813 | A sent force request raises the flag ahead of any further bytes |
| `ControlPipe.OtherLineIsIgnored` | packaging/desktop_backend.py:2815-2828 | A line that is neither a force request nor of the registration form changes nothing |
| `ControlPipe.ForcedIff` | packaging/desktop_backend.py:2809-2837 | The force flag is raised if and only if some complete line of the stream is the force request |
| `ControlPipe.StreamIsLines` | packaging/desktop_backend.py:2809-2837 | A stream is its complete lines and what is left of it |
| `ControlPipe.DropsCharacters` | packaging/desktop_backend.py:2814-2814 | Decoding drops exactly the characters that are not ASCII, one by one |
| `Guardian.ConsumeFlags` | packaging/desktop_backend.py:2864-2871 | Flags are only ever raised, so joining per-payload flags equals carrying them through the stream |
| `Guardian.OwnershipState.ConsumeCommands` | packaging/desktop_backend.py:2799-2837 | Tracked set, ids, buffer and flags after one payload are those of the specification |
| `Guardian.OwnershipState.DrainControl` | packaging/desktop_backend.py:2840-2872 | Drains every payload before the first stop, and tells end of file from would-block and from a read error |
| `Containment.AdopterIsInTree` | packaging/desktop_backend.py:3004-3013 | Under a live subreaper guardian the adopter of a tree orphan is the guardian or an older tree member |
| `Containment.EventKeepsRooted` | packaging/desktop_backend.py:3004-3013 | Every process event keeps each tree member under a live parent that is the guardian or an older tree member |
| `Containment.TreeIsDiscovered` | packaging/desktop_backend.py:2541-2615 | In a rooted world every tree member is discovered from an atomic snapshot, whatever was tracked before |
| `Containment.ContainmentIsComplete` | packaging/desktop_backend.py:2541-2615 | In every run of process events every descendant of the guardian is in the discovered set |
| `Containment.ReusedPidIsSkipped` | packaging/desktop_backend.py:2702-2713 | For every tracked PID but the guardian's there is a world with a live guardian child under that PID whose snapshot refreshes to nothing |
| `Containment.EmptyRefreshProvesEmptyIff` | packaging/desktop_backend.py:2618-2721 | An empty refresh proves an empty tree, in every world and on every atomic snapshot, if and only if nothing but possibly the guardian was tracked going in |
| `Containment.ConfirmedEmpty` | packaging/desktop_backend.py:2935-2993 | A refresh that starts and ends with nothing tracked proves that no descendant of the guardian exists |
| `Containment.EmptyForever` | packaging/desktop_backend.py:2935-2993 | An empty tree stays empty in every run in which the guardian forks nobody |
| `Custody.StepKeepsLineage` | packaging/desktop_backend.py:3004-3013 | Every process event keeps each process under the root or under a live process it descends from |
| `Custody.DiscoveredIsTree` | packaging/desktop_backend.py:2541-2615 | On an atomic snapshot, with holdings that name tree members and no outsider in a member's group, discovery finds exactly the guardian's tree |
| `Custody.ChildIsDiscovered` | packaging/desktop_backend.py:2559-2572 | The premises of the soundness results can be met by a guardian with a child, and discovery finds that child |
| `Custody.RefreshKeepsHoldings` | packaging/desktop_backend.py:2618-2721 | A refresh keeps every tracked PID and group naming a generation that descends from the guardian |
| `Custody.OnlyMembersTracked` | packaging/desktop_backend.py:2935-2993 | In every run a refresh discovers exactly the tree, and every PID it tracks is held by a tree member or by nobody |
| `Validator.SameGenerationIff` | packaging/desktop_backend.py:2457-2468 | A later read matches a snapshot row if and only if the same generation still holds the PID |
| `Validator.ParentConfirmedIff` | packaging/desktop_backend.py:2471-2538 | With or without the pidfd guard, a parent edge is confirmed if and only if the candidate is the same generation and the relative its parent when it is read, and the relative survives the validation |
| `Validator.QuietIffAlive` | packaging/desktop_backend.py:2489-2511 | The pidfd stays quiet if and only if the generation of the snapshot is alive at the last poll |
| `Validator.GroupConfirmedIff` | packaging/desktop_backend.py:2471-2538 | A group edge is confirmed if and only if the candidate is the same generation in that group, the relative leads it at both reads in the candidate's session, and the relative survives the validation |
| `Validator.AtomicSnapshotIsConfirmed` | packaging/desktop_backend.py:2471-2538 | While nothing happens the validator confirms every edge to a live parent that the snapshot shows |
| `Signal.TokenReadBindsGeneration` | packaging/desktop_backend.py:2911-2930 | A matching token read proves that the recorded generation held the PID when the pidfd was opened |
| `Signal.SignalReachesOnlyRecorded` | packaging/desktop_backend.py:2911-2930 | SIGKILL reaches exactly the recorded generation while it still holds its PID, and nobody otherwise |
| `Custody.NeverKillsStranger` | packaging/desktop_backend.py:2986-2990 | At any point of any run a signal for a tracked process, under exits and PID reuse, reaches a descendant of the guardian or nobody |
| `GuardianRun.ConfirmationIsEmpty` | packaging/desktop_backend.py:2975-2983 | A termination call that ends successfully has confirmed a truly empty tree |
| `GuardianRun.PublishProves` | packaging/desktop_backend.py:1348-1367 | A successful publication loop leaves no record or the exact proof beside it |
| `GuardianRun.NextKeepsInv` | packaging/desktop_backend.py:3245-3300 | Every step of guardian, pipe, processes and records keeps what the guardian relies on at each program point |
| `GuardianRun.PhasesInOrder` | packaging/desktop_backend.py:3245-3300 | Every phase of the shutdown path is entered in one way only, and an empty view is remembered only from the refresh that found it |
| `GuardianRun.DrainedRegistration` | packaging/desktop_backend.py:3258-3279 | A registration read in the drain is tracked by the next termination call and keeps this drain from ending clean |
| `GuardianRun.RefreshTakesOver` | packaging/desktop_backend.py:2950-2957 | A refresh in a termination call takes over groups and unique ids and leaves the registered processes alone |
| `GuardianRun.ReleaseHistory` | packaging/desktop_backend.py:3245-3300 | A released lease was preceded, in order, by a confirmed empty tree, a clean drain without registration, a second confirmed empty tree and a proving publication |
| `GuardianRun.LeaseReleaseIsSafe` | packaging/desktop_backend.py:1370-1396 | At every moment of every run the lease is held, or the tree is empty, all pipe bytes are consumed, no writer is left and the proof was durable or the record absent |
| `GuardianRun.ReleaseIsReachable` | packaging/desktop_backend.py:3245-3300 | A run that releases the lease exists, so the safety results are not vacuous |
| `ProofRetry.ClockAdvances` | packaging/desktop_backend.py:1357-1366 | Each slept attempt moves the clock one second on or past the deadline |
| `ProofRetry.PublishWithRetry` | packaging/desktop_backend.py:1348-1367 | At most ceil(timeout) + 1 attempts with pauses of one second or of the time left; success means published or record absent, failure means every attempt failed and time or the first stop request ended it |
| `Shutdown.Coordinator.RequestSection` | packaging/desktop_backend.py:198-206 | First is reported exactly when no request came before, and the callback to call is the current one |
| `Shutdown.Coordinator.InstallSection` | packaging/desktop_backend.py:208-214 | The callback becomes current, and is to be called at once exactly when shutdown was already requested |
| `Shutdown.Coordinator.UninstallSection` | packaging/desktop_backend.py:216-220 | Removes the current callback only if it is the given one |
| `Shutdown.CurrentIsUndisturbed` | packaging/desktop_backend.py:208-220 | A callback is current if and only if no later install and no matching uninstall follows its installation |
| `Shutdown.FirstRequestIsUnique` | packaging/desktop_backend.py:198-206 | In any order of lock sections exactly one request reports first |
| `Shutdown.InvokedByOneCall` | packaging/desktop_backend.py:198-214 | An installation is invoked by exactly one call when it is due and by none otherwise |
| `Shutdown.InvokedExactlyWhenDue` | packaging/desktop_backend.py:190-220 | Over all interleavings a callback is invoked at most once, never unless due, and exactly once when due and nothing is outstanding |
| `Archive.NothingIsOverwritten` | scripts/migrate-auth-state-duckdb-to-sqlite.py:255-296 | Whatever file exists at one moment of a run, found, own or created by another program meanwhile, is kept at every later one; a temporary goes only beside a verifying archive and only an own one grows |
| `Archive.NormalReturnIsArchived` | scripts/migrate-auth-state-duckdb-to-sqlite.py:255-296 | A normal return leaves an archive that decrypts to the expected digest, and no temporary |
| `Archive.ReturnsNormallyIff` | scripts/migrate-auth-state-duckdb-to-sqlite.py:255-296 | Exactly when archival returns normally, over all combinations of the three files and whatever appears meanwhile |
| `Archive.RefusalChangesNothing` | scripts/migrate-auth-state-duckdb-to-sqlite.py:255-296 | A refusal has written something if and only if it created the temporary and then found the source replaced or an archive at its target; the temporary is then all it leaves |
| `Archive.LateArchiveIsRefused` | scripts/migrate-auth-state-duckdb-to-sqlite.py:287-290 | A concrete refusal that leaves its complete temporary behind: a foreign archive appears before the link |
| `Archive.CrashShapes` | scripts/migrate-auth-state-duckdb-to-sqlite.py:273-296 | Every crash state is the one found, has a verifying or a foreign archive, or has a foreign temporary or a prefix of the ciphertext |
| `Archive.UndisturbedRun` | scripts/migrate-auth-state-duckdb-to-sqlite.py:255-296 | With the expected source in place and no interference, a run completes if and only if every copy found verifies, and otherwise writes nothing |
| `Archive.RerunCompletesOrRefuses` | scripts/migrate-auth-state-duckdb-to-sqlite.py:255-296 | After any crash of any disturbed run, with the source present or gone, an undisturbed rerun returns normally or writes nothing |
| `Archive.RerunAfterCrash` | scripts/migrate-auth-state-duckdb-to-sqlite.py:255-296 | The exact crash points of an undisturbed run with its source in place: from the source alone, a rerun completes if and only if the crash fell before the temporary was created or after its last byte; from existing copies, if and only if the first run would have |
| `Archive.InterruptedWriteIsRefused` | scripts/migrate-auth-state-duckdb-to-sqlite.py:269-272 | A concrete lawful cipher, source and crash point after which archival refuses |
| `Archive.ArchiveDirectory.CreateExclusive` | scripts/migrate-auth-state-duckdb-to-sqlite.py:281-281 | Exclusive creation fails, and changes nothing, exactly on an existing temporary |
| `Archive.ArchiveDirectory.LinkArchive` | packages/core/core/src/flinttrade_core/legacy_sqlite_migration.py:87-96 | Publication fails, and changes nothing, exactly on an existing archive |
| `Archive.ArchiveDirectory.WriteTemporary` | scripts/migrate-auth-state-duckdb-to-sqlite.py:281-285 | The temporary passes through every prefix of the ciphertext in order, or the creation failed and it is untouched |
| `Archive.ArchiveDirectory.Run` | scripts/migrate-auth-state-duckdb-to-sqlite.py:255-296 | The files pass through exactly the specified states, with foreign files appearing before the creation and before the link |
| `Webhooks.TranscodedKeepsMeaning` | scripts/migrate-auth-state-duckdb-to-sqlite.py:205-252 | One row keeps identity, path, version and secret, becomes current, and is untouched if it was current |
| `Webhooks.AcceptedIff` | scripts/migrate-auth-state-duckdb-to-sqlite.py:226-243 | Exactly which rows are accepted: path, version and a textual secret under the current scheme or, with the key, under the legacy one; a row that opens under neither is refused |
| `Webhooks.LegacyRowIsTranscoded` | scripts/migrate-auth-state-duckdb-to-sqlite.py:205-223 | A row written by the legacy scheme, as text or as a raw token, comes out current with its secret when the key is there, and is refused without it |
| `Webhooks.CanonicalPath` | packages/integrations/webhooks/src/flinttrade_webhooks/webhook_secret_store.py:52-55 | Blanks around a path and slashes in front of it do not matter for its identity |
| `Webhooks.AcceptedIsTranscodable` | scripts/migrate-auth-state-duckdb-to-sqlite.py:226-252 | With a lawful cipher the check of new ciphertexts refuses no accepted row |
| `Webhooks.WebhookTable.Transcode` | scripts/migrate-auth-state-duckdb-to-sqlite.py:226-252 | Succeeds exactly when every row can be transcoded and counts the stale ones; a refusal leaves all rows unchanged |
| `Webhooks.TranscodingPreservesMeaning` | scripts/migrate-auth-state-duckdb-to-sqlite.py:331-353 | The built table satisfies the row validator: same rows under source decryption with the legacy key and target decryption without it |
| `Webhooks.PlainRowsIff` | scripts/migrate-auth-state-duckdb-to-sqlite.py:331-353 | The row validator's comparison sees identity, path, version and secret of every row |
| `Webhooks.TranscodingIsIdempotent` | scripts/migrate-auth-state-duckdb-to-sqlite.py:226-252 | A second run, with or without the legacy key, accepts every row and changes none |
| `AuditGate.LoadLock` | scripts/pip-audit-with-allowlist.py:86-117 | Yields exactly the non-empty map the lines pin, and refuses exactly when no such map exists |
| `AuditGate.LockIsUnambiguous` | scripts/pip-audit-with-allowlist.py:86-117 | A lock pins at most one name-to-version map |
| `AuditGate.PinnedLine` | scripts/pip-audit-with-allowlist.py:43-45 | A line of name, two equals signs and version pins exactly these, bare or before a marker or a continuation, and anything else behind it refuses the line |
| `AuditGate.PinnedHasName` | scripts/pip-audit-with-allowlist.py:97-106 | Whatever pins something has a project name in front of two equals signs |
| `AuditGate.SkippedIff` | scripts/pip-audit-with-allowlist.py:95-96 | Exactly empty lines, comments and indented lines pin nothing |
| `AuditGate.CanonicalJoins` | scripts/pip-audit-with-allowlist.py:106-106 | Case and kind or number of separators do not matter in a package name |
| `AuditGate.AlnumIff` | scripts/pip-audit-with-allowlist.py:44-44 | The characters a project name may begin with are the ASCII letters and digits |
| `AuditGate.ReportCoverage` | scripts/pip-audit-with-allowlist.py:132-171 | Yields exactly the map a report covers, and succeeds if and only if every entry is complete, not skipped, parses and is the only one of its name |
| `AuditGate.CoveredIsComplete` | scripts/pip-audit-with-allowlist.py:132-171 | A covered report is complete entry by entry, and the map holds each entry's version |
| `AuditGate.ExitAgreesIff` | scripts/pip-audit-with-allowlist.py:199-200 | The audit's exit status is trusted if and only if it says whether any entry lists a vulnerability |
| `AuditGate.CoverIsUnambiguous` | scripts/pip-audit-with-allowlist.py:174-196 | A report covers at most one map, so coverage comparison is exact |
| `AuditGate.CapturedSnapshotIsAcceptedIff` | scripts/pip-audit-with-allowlist.py:312-355 | A captured report is accepted for the same lock if and only if stored under its audit day and aged 0 to 14 days |
| `AuditGate.SnapshotAcceptedIff` | scripts/pip-audit-with-allowlist.py:312-355 | Exactly which snapshots are accepted, field by field |
| `AuditGate.RepublishedIsNoSnapshot` | scripts/pip-audit-with-allowlist.py:203-226 | A report published online or from the cache never passes for a snapshot |
| `AuditGate.CollectBlocking` | scripts/pip-audit-with-allowlist.py:422-445 | Collects the blocking findings of the specification in report order |
| `AuditGate.BlockingIsUnexcused` | scripts/pip-audit-with-allowlist.py:394-445 | The blocking findings are exactly those whose severity is missing or not low, medium or moderate and that no unexpired entry for id and package excuses |
| `AuditGate.NoBlockingFindings` | scripts/pip-audit-with-allowlist.py:422-445 | The list of blocking findings is empty if and only if no finding blocks |
| `AuditGate.OnlineAudit` | scripts/pip-audit-with-allowlist.py:234-309 | A report comes back exactly when the audit is trustworthy for this lock, stamped with its provenance |
| `AuditGate.OfflineSnapshot` | scripts/pip-audit-with-allowlist.py:358-391 | A report comes back exactly when the snapshot is trustworthy for this lock, stamped as cached |
| `AuditGate.RunGate` | scripts/pip-audit-with-allowlist.py:509-535 | The exit status exactly: 2 when no verdict is possible, else a report bound to the unchanged lock and covering exactly its map, with 0 if and only if every finding is low, medium or moderate or has an unexpired entry; the lock is the same file under a collision-free digest |
| `AuditGate.CaptureSnapshot` | scripts/pip-audit-with-allowlist.py:489-506 | A captured snapshot covers its unchanged lock and is accepted later exactly under its audit day within 14 days |
| `BrowserReport.RowVisitor.Visit` | tools/acceptance/csp.py:51-65 | Visiting a suite appends exactly the rows of its nested tests with their title paths, in order |
| `BrowserReport.CollectRows` | tools/acceptance/csp.py:48-69 | The collected rows are those of the recursive definition |
| `BrowserReport.TopRowsIff` | tools/acceptance/csp.py:48-69 | The rows are exactly the tests of the nested specs, each with its spec's file, the titles on the way to it and its project |
| `BrowserReport.JoinAppends` | tools/acceptance/csp.py:58-58 | A title path is its titles in order with the separator between them |
| `BrowserReport.CollectTests` | scripts/ci_artifact_projection.py:112-121 | The projector's visitor collects the tests of the recursive definition |
| `BrowserReport.TraversalsAgree` | scripts/ci_artifact_projection.py:112-121 | Row extraction and the projector's visitor enumerate the same tests in the same order |
| `Acceptance.SelectCounts` | tools/acceptance/csp.py:259-287 | Role selection keeps every occurrence of the kept identities and no other |
| `Acceptance.RolesPartition` | tools/acceptance/csp.py:259-287 | Every collected identity belongs to exactly one of the three roles, which add up to the collection |
| `Acceptance.PartitionIff` | tools/acceptance/csp.py:259-273 | A split is admitted if and only if the listing repeats nothing, holds precisely both literal inventories in their files, and something is left |
| `Acceptance.Collect` | tools/acceptance/csp.py:302-345 | The roles that come back partition the listing, identity by identity, into the two literal inventories and the rest, each confirmed by its own listing |
| `Acceptance.RunBrowserRoles` | tools/acceptance/csp.py:355-392 | A role starts only on a free port, with positive time that ends at the one deadline, and after every earlier report was admitted; success if and only if every role was startable and admitted |
| `Acceptance.RolesShareOneBudget` | tools/acceptance/csp.py:372-388 | All roles together run for at most 1,200 seconds and end by the deadline |
| `Acceptance.ExecutedIsCollection` | tools/acceptance/csp.py:227-256 | The three executed reports together are the collection as a multiset, and every test is sound |
| `Acceptance.ExecutedIff` | tools/acceptance/csp.py:227-256 | What an executed role report proves, exactly, down to result, retry, errors and annotations of every test |
| `Acceptance.FactoriesSoundIff` | tools/acceptance/csp.py:432-447 | The counts of distinct processes and workspaces pass if and only if no two CSP cases shared either and every factory drained |
| `Acceptance.RunDefault` | tools/acceptance/csp.py:395-448 | Status 0 exactly under the stated checks; then every identity ran once, in one role, without retry, and passed unless it is a control that failed as intended, and every CSP case had its own factory |
| `Evidence.SumIsCases` | scripts/ci_artifact_projection.py:67-93 | Where no case has two outcomes, outcome elements and cases with that outcome are equally many |
| `Evidence.JunitConserves` | scripts/ci_artifact_projection.py:67-93 | Accepted counts add up with non-negative passes and account for every outcome element anywhere in the tree |
| `Evidence.JunitAcceptedIff` | scripts/ci_artifact_projection.py:67-90 | Exactly which trees are accepted: root, cases, outcomes and every total of every suite |
| `Evidence.CollectedOccurs` | scripts/ci_artifact_projection.py:73-79 | The collected elements are exactly those with the tag at any depth |
| `Evidence.CountIsCollected` | scripts/ci_artifact_projection.py:89-90 | Counting elements and collecting them is the same |
| `Evidence.DeclaredTotalsAreActual` | scripts/ci_artifact_projection.py:78-90 | Every total declared by the root or any nested suite is the number of cases below it with that outcome, and only a grouping root may leave its total out |
| `Evidence.TallyTests` | scripts/ci_artifact_projection.py:148-163 | Succeeds exactly when every test is consistent, with both counters exact for every key |
| `Evidence.CountBrowser` | scripts/ci_artifact_projection.py:96-169 | The projector's steps give exactly the specified counts or refusal |
| `Evidence.BrowserAcceptedIff` | scripts/ci_artifact_projection.py:111-165 | Exactly which browser reports are accepted: every test counted once, right totals and right expectations |
| `Evidence.BrowserConserves` | scripts/ci_artifact_projection.py:148-169 | Every test of an accepted browser report passed, failed or was skipped |
| `Evidence.OnlyControlsFailed` | scripts/ci_artifact_projection.py:122-147 | If the counts show only the expected failures, exactly the negative controls failed |
| `Evidence.FailuresExpectedIff` | scripts/ci_artifact_projection.py:122-169 | The failures are as many as expected if and only if the failed tests are the negative controls of an infrastructure report |
| `Evidence.NoneSkippedIff` | scripts/ci_artifact_projection.py:148-169 | No test is counted as skipped if and only if every test passed once or failed |
| `Evidence.CleanIff` | scripts/ci_artifact_projection.py:235-238 | Counts pass the final comparison if and only if nothing is wrong in the evidence itself: no outcome element in a tree, no test that did not pass but the controls |
| `Evidence.ProjectReports` | scripts/ci_artifact_projection.py:220-243 | Reports a missing, invalid or nonpassing report if and only if there is one; no issue if and only if every report is accepted and, after a successful exit, nothing is wrong in any of them |
| `Evidence.ProjectLanes` | scripts/ci_artifact_projection.py:203-219 | Finds the first missing lane, reports a bad path if and only if there is one and a wrong order if and only if a completed lane follows a missing one |
| `Evidence.Project` | scripts/ci_artifact_projection.py:172-246 | Valid exactly when head, receipt, isolation and lane order are in order and every parsed report is accepted, and exit status 0 comes with all lanes and nothing wrong in any report but the negative controls |

## Left out

- macOS and Windows containment (libproc, pipe lease, Job Objects, the Windows guardian cleanup): foreign calls; the completeness, kill and lease-release results are about Linux with pidfd.
- The Linux kill without pidfd: it has an admitted gap between the token check and the signal, so no reuse result is claimed for it.
- Containment.ContainmentIsComplete: the process table is one atomic snapshot; the row-by-row scan of `/proc` while processes fork, and rows the scan skips because they do not parse, are not modelled.
- Refresh.SampledRefreshIff: the relationship validator is held fixed during one refresh and does not raise; its own behaviour over time is stated in `Validator`.
- GuardianRun.LeaseReleaseIsSafe: begins at the first termination call, in any state; the earlier supervision loop, the setup-abort path and a launch without a record path (which needs no proof) are not modelled.
- ProofRetry.PublishWithRetry and PromoteWait.PromoteWithWait: time is real-valued and the clock, file observations and publication results are parameters.
- Temporary files of the atomic record replacement, owner, DACL and inode checks, the guard-inode probe and lock contention: hardened file primitives, taken as atomic replace, durable unlink and mutual exclusion.
- Path and environment validation before each transition; the launch identity is a parameter.
- ControlPipe.RegistrationDecodes: tokens are ASCII without tabs; reads are not limited to 4096 bytes, and Python's limit on the number of digits in an integer literal is not modelled.
- PyText.DecimalRoundTrip: text is ASCII; Unicode digits, blanks and line breaks accepted by Python on non-ASCII text are not modelled.
- Parent watchdog threads, stdio detachment and message printing: input and output without a further property.
- Shutdown.InvokedExactlyWhenDue: a callback that raises counts as invoked; the signal relay is not modelled.
- The database copy, schema creation and the tables other than webhook secrets in the migration: engine calls.
- Archive.RerunAfterCrash: the exact crash points are for an undisturbed run with its source in place; `Archive.RerunCompletesOrRefuses` covers the rest.
- AuditGate.RunGate: timestamps are integers, versions, digests and canonical JSON are parameters; timestamp text, JSON typing of single fields and malformed allowlist files are not modelled.
- Evidence.JunitConserves: starts from a parsed tree; the checks on the raw XML text (document type, NUL bytes) are not modelled.
- Acceptance.RunDefault: the trusted fixture directory of a report, and the error text, code frames and attachments of a negative control, are abstract predicates; the bundle comparison of the production build is one flag; the run restricted to one case and the written test lists are not modelled.
- Evidence.Project: the receipt, the head and which files exist are parameters; their path and format checks are not modelled.
- The remaining scripts (versions, URLs, licences, toolchain pins, path classification, sharding, the task runner) and the user interface: table lookups or single loops that would only add easier members.
