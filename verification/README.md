# Pit Officer, modelled in Dafny

A model of the parts of Pit Officer that hold its state, its branching and its arithmetic, with
proofs of what they promise. `dafny verify dfyconfig.toml` checks the whole project.

| file | models |
|---|---|
| `Gate.dfy` | the non-release gate as concurrent choices, workers, closers, outside cancellation and rival processes, with the closures in `main` that own the application |
| `GateRuns.dfy` | runs of the gate: how many workers linger, which failed gates can be retried |
| `GateFairness.dfy` | endless runs of the gate under fair scheduling: why no Close hangs |
| `GateMethods.dfy` | the gate's critical sections as methods, tied to the interleaved moves |
| `Publication.dfy` | preparing a non-release database and publishing it by hard link beside a rival process |
| `Lifecycle.dfy` | the restart/stop controller and its capacity-1 channel |
| `Signing.dfy`, `Envelopes.dfy` | signing, verification and key rotation over a store that can fail at any call |
| `SigningRace.dfy` | any number of callers rotating and reloading keys at once, store call by store call |
| `Approval.dfy` | the attestor run of a submit, the approval it hands back, and the confirm/cancel shortcut that re-verifies it |
| `Submit.dfy` | a signed submit from the request's checks through the node's run of events to the answer and the audit record |
| `Reports.dfy` | the attestors of execution reports and cancellations |
| `Reproduction.dfy` | reproducing what a request was answered |
| `ResolverBook.dfy`, `Resolver.dfy` | the code/engine-id dictionary: one partial bijection, and the shared mutable maps that refine it |
| `TextScan.dfy`, `EngineText.dfy` | rewriting engine ids in engine text |
| `Outcomes.dfy`, `AccountPnl.dfy`, `Settlement.dfy` | merging balance outcomes, the account P&L rule, and the two-phase settlement of an immediate order |
| `OrderSize.dfy` | mapping order-size limits onto barriers |
| `DecimalOrder.dfy` | comparing decimals with extreme exponents |
| `EngineBuild.dfy` | ownership of engines and market-data generations over successful and failed builds |
| `MarketData.dfy` | quote sinks with id caches over one shared registry |
| `Domain.dfy` | error kinds, options, results, and the decimal text of a number |

Conventions. Code that updates state is a class or a method with a loop, tied by its `ensures` to a
function on values; the theorems are about those functions, or about a step relation where calls
interleave. A call that can fail takes its failure as a parameter; a failed store call leaves the
store as it was. An error is the sentinel it wraps (`Internal` when it wraps none). Decimal texts
are identified by the exact number they denote. Ed25519 is ideal: a signature says who made it over
which payload, and a seed determines its public half; the envelope and the canonical bytes encode
exactly. The regular expression engine enters as a matcher that reports exactly the pattern's
matches, and the Unicode table of printable characters as a parameter.

Where the code differs from its words:

- `engine/mapping.go:196-202` says the quotes keep a rewritten text from matching again. Quotes
  alone do not: a code that spells `asset 2` would match inside them
  (`EngineText.QuotesAloneDoNotProtect`). What protects the text is that a valid code holds no
  whitespace (`EngineText.ValidatedCodesGiveFixedPoint`); `TextScan.OutputIsFixedPointExactly` gives
  the exact condition.
- `httpapi/httpapi_orders.go:352-356` says the exact live answer is reproduced. For whatever the
  node answers a submit it is (`Reproduction.NodeSubmitIsReproduced`); a node that recorded a
  rejection without a reason would show one blank reason live and none reproduced
  (`Reproduction.SubmitIsReproducedExactly`). For an execution report it is not when the answer
  carried balance outcomes or blocks: the reproduction never has outcomes, and the events an engine
  builds record no block (`engine/mapping.go:1786-1789`, `Reproduction.ReportIsReproducedExactly`).
  For a cancellation it is not when the caller gave no open quantity: live shows the order's own,
  the reproduction none (`Reproduction.CancelIsReproducedExactly`).

What the code does not promise, and where the line runs:

- A failed gate can be retried exactly when its context is not cancelled and no file it published
  stands on its own path (`GateRuns.RetryableExactly`). A preparation that published its file but
  could not remove the temporary one (`nonrelease.go:44-45`) leaves such a file.
- The wait group's counter is not bounded by one, because a worker unlocks before it calls `Done`
  (`GateRuns.CounterHasNoBound`); what holds is `Gate.WheneverTheMutexIsFree` and `Gate.CounterStaysSound`.
- There is at most one active signing key exactly when at most one was stored since all were last
  deactivated (`Signing.AtMostOneActiveExactly`, `SigningRace.OneActiveKeyExactly`). Rotations that
  follow one another meet that (`Signing.NeverTwoActiveKeys`); two that both deactivate before
  either stores do not (`Signing.InterleavedRotationsLeaveTwo`).

## Model

| member | source | states |
|---|---|---|
| Gate.WheneverTheMutexIsFree | nonrelease.go:228-294 | in every interleaving, whenever the mutex is free: preparing exactly while one launched worker has not published its outcome, never two such workers, and the handler is an application the callback built exactly when the phase is ready |
| Gate.ReachableIsSound | nonrelease.go:228-307 | every state any run reaches keeps all the invariants: mutex, phase, counter, closing, file, applications |
| Gate.ReadyIsAbsorbing | nonrelease.go:246-294 | once ready the phase stays ready and the first application served is served forever |
| Gate.NoAddOnceClosing | nonrelease.go:248-262 | once any Close has cancelled, no goroutine is between its context check and its Add, so no Add is concurrent with a Wait or comes after it |
| Gate.NothingRunsAfterClose | nonrelease.go:296-307 | after any Close has returned no worker is live and, whatever follows, none ever is |
| Gate.CounterStaysSound | nonrelease.go:261-287 | the wait-group counter is exactly the number of workers that have not called Done, plus one between Add and the launch |
| GateRuns.FreshGateIsOpen | nonrelease.go:195-226 | a new gate is open to a choice, with nothing cancelled, counted, served or stored |
| GateRuns.CounterHasNoBound | nonrelease.go:270-294 | for every n some run has n workers counted while the gate would accept another choice |
| Gate.GateDeletesOnlyItsOwn | nonrelease.go:266-285 | a step that changes the own file publishes it where nothing stood, or deletes it after this very worker published it and its build failed |
| Gate.FailedBuildFreesThePath | nonrelease.go:266-285 | after a build that fails, whatever all others do in between, the worker's next move, if its removal succeeds, leaves nothing on the path |
| Gate.AbandonedExactly | nonrelease.go:266-285 | a worker leaves its published file behind for good exactly when the temporary file could not be removed, the context was cancelled before the build, or the removal after a failed build failed |
| Gate.FailedCleanupAbandonsTheFile | nonrelease.go:71-80 | failing to remove the temporary file after the link leaves a published file no worker owns |
| Gate.PublishedFailureIsFinal | nonrelease.go:44-45 | from such a state the file is never removed and the gate never becomes ready |
| GateRuns.RetryableExactly | nonrelease.go:246-294 | a failed gate with a free mutex can still become ready exactly when its context is not cancelled and no file it published stands on its own path |
| GateFairness.EveryFairCloseReturns | nonrelease.go:296-307 | in every endless run in which a thread that can move again and again does, wherever a closer stands, whoever keeps arriving, whichever calls fail and whatever rivals do, the Close returns |
| GateFairness.EveryFairRunClosesItsApps | cmd/pit-officer/main.go:480-517 | in every such run, once main begins to close, every application ever stored is closed in the end, exactly once |
| GateFairness.SteppingIsNearer | nonrelease.go:246-307 | a thread's move that is not a wait lowers the number of moves still to make, whichever calls fail |
| GateFairness.MutexIsFreeAgain | nonrelease.go:246-307 | in every such run the mutex is free again and again |
| GateFairness.EveryThreadMoves | nonrelease.go:246-307 | in every such run nobody waits for the mutex for ever |
| GateFairness.FairRunsExist | nonrelease.go:228-307 | from every reachable state some run is fair, so fairness asks nothing impossible |
| GateFairness.EveryCloseCanReturn | nonrelease.go:296-307 | from every reachable state, wherever a closer stands, letting threads move is enough for it to return |
| Gate.AppsAreClosedExactlyOnce | cmd/pit-officer/main.go:480-517 | no application the callback stored is closed twice or while a worker can still run, and when closeApp has returned every one is closed |
| GateMethods.UninterruptedChoiceIsChoose | nonrelease.go:248-264 | the interleaved chooser, uninterrupted from lock to unlock, is the method: same refusal and no worker launched, or same new panel and exactly one |
| GateMethods.ChoiceIsAcceptedExactly | nonrelease.go:246-264 | an uninterrupted choice is accepted exactly when the gate is choosing or failed, its context is not cancelled and a release database asked for is there; refused as invalid for that last reason alone, else as a conflict |
| GateMethods.UninterruptedPublicationIsPublishOutcome | nonrelease.go:286-294 | the interleaved worker's last moves, uninterrupted, are the method, for a failure and for a built application |
| GateMethods.UninterruptedCloseIsCancelContext | nonrelease.go:302-305 | the interleaved closer's moves up to its wait, uninterrupted, are the method |
| GateMethods.FreePanelIsSettled | nonrelease.go:228-294 | what the methods keep, the machine keeps whenever the mutex is free: served exactly when ready, and a preparation under way is counted |
| GateMethods.PublisherIsPreparing | nonrelease.go:286-294 | a worker that publishes its outcome finds the phase preparing, as the method requires |
| GateMethods.NonReleaseGate.Choose | nonrelease.go:246-264 | refuses with the conflict or validation error and changes nothing, or launches exactly one preparation; keeps the panel settled |
| GateMethods.NonReleaseGate.PublishOutcome | nonrelease.go:286-294 | from preparing, the machine's own publication of the outcome, keeping the application served exactly when ready and a failure text only beside a failure |
| GateMethods.NonReleaseGate.CancelContext | nonrelease.go:302-305 | every later choice is refused, and nothing else changes |
| Publication.PrepareNonReleaseDatabase | nonrelease.go:38-127 | with a rival acting between its steps: it never changes or removes an own file it did not publish, touches no other name or file, publishes exactly when no call fails and no rival holds the path, and then the path names a new closed migrated database with every connection disabled; an error after publication means exactly that a temporary file stayed |
| Publication.PrepareStore | nonrelease.go:90-121 | succeeds exactly when every store call does; the file then holds the migrated content with every connection disabled, the pending writes having been closed into it |
| Publication.StoreWorksExactly | nonrelease.go:90-121 | each call on the store is needed, disabling a connection that is enabled included |
| Publication.PreparableExactly | nonrelease.go:79-124 | and so are closing the temporary file and the snapshot of a release database that is there |
| Publication.SourceExactly | nonrelease.go:82-86 | a copy is of the release database itself if it was asked for, and else starts empty |
| Publication.DisableConnections | nonrelease.go:107-118 | disables every enabled connection and changes nothing else, or fails exactly when disabling an enabled one fails |
| Publication.Publish | nonrelease.go:129-134 | the own path is bound to the prepared file exactly when nothing stands there |
| Publication.RemoveDatabaseFiles | internal/store/sqlite/store.go:486-504 | every name is tried whatever fails before it; succeeds exactly when all are gone |
| Lifecycle.AtMostOneActionAndNeverBlocked | cmd/pit-officer/main.go:566-593 | over any requests at most one action is ever sent, right after its own audit record and answer, and no send waits on the full channel while holding the mutex |
| Lifecycle.SentExactlyWhenAudited | cmd/pit-officer/main.go:575-608 | an action is sent exactly when some request is a known action whose audit record is written |
| Lifecycle.AnswersExactly | cmd/pit-officer/main.go:575-593 | a request is a conflict exactly once some request was valid and audited; before that it is recorded, accepted and sent, or an error that changes nothing |
| Lifecycle.ReceivesTheFirst | cmd/pit-officer/main.go:365-372 | the serve loop receives the action of the first such request, once, and nothing else |
| Lifecycle.ServiceLifecycleController.TakeRequest | cmd/pit-officer/main.go:365-372 | the serve loop takes the buffered action and leaves the channel empty |
| Lifecycle.ServiceLifecycleController.Handle | cmd/pit-officer/main.go:575-593 | one request as a step: 409 when pending, 500 when unknown or unaudited, else record, answer, send |
| Signing.SignedEnvelopeAlwaysVerifies | signing/signing.go:225-347 | an envelope signed at any time verifies after any later history of generate, import, reload and restore, failing anywhere, exactly when its version is 1, its bindings match, and its key is still cached or the keys can be listed |
| Signing.RunKeepsKeys | signing/signing.go:101-172 | no history loses a public key, and the cached pair is always a stored key and its own private half |
| Signing.UnsignedVerifiesExactlyWhileOff | signing/signing.go:301-322 | an unsigned envelope is accepted exactly while the last flag written says eSign is off, and its version and bindings match |
| Signing.AcceptedSignatureIsGenuine | signing/signing.go:272-323 | what is accepted as signed was signed over exactly that payload by the stored key it names |
| Signing.VerifiesExactly | signing/signing.go:269-347 | any text verifies exactly when it decodes to a version 1 envelope that binds what is expected and is signed over its own payload by the key it names, or unsigned while that is allowed; with the error kind of every refusal |
| Signing.AlteredEnvelopeIsRefused | signing/signing.go:272-323 | no field of a signed payload can be altered, nor the payload relabelled unsigned while eSign is on |
| Signing.RotationIsAllOrKeepsSigning | signing/signing.go:151-172 | a rotation succeeds exactly when no store call fails, and then its key is the only active one and the cached one, and is answered without its private half; a failed one keeps signing with the key cached before |
| Signing.ReloadsExactly | signing/signing.go:100-122 | a reload succeeds exactly when the keys can be listed and the first active one, if any, has usable material, whose key is then cached; on an error, with its kind, nothing changes |
| Signing.ReloadAfterRotation | signing/signing.go:100-128 | a reload after a rotation finds the old key if nothing was written, none if it stopped after deactivating, the new key if it was stored |
| Signing.NeverTwoActiveKeys | signing/signing.go:151-172 | with rotations one at a time there is never a second active key, whatever fails |
| Signing.AtMostOneActiveExactly | signing/signing.go:153-168 | over any log of key-table writes there is at most one active key exactly when at most one key was stored since the last deactivation, counting those active before if there was none |
| Signing.ActiveRowsAreTheStoresSince | signing/signing.go:153-168 | the number of active keys is that count |
| Signing.InterleavedRotationsLeaveTwo | signing/signing.go:153-168 | so two rotations that both deactivate before either stores leave two active keys |
| SigningRace.OneActiveKeyExactly | signing/signing.go:130-172 | over any interleaving of any number of rotations, reloads and restores, failing anywhere, the same condition decides |
| SigningRace.SignedEnvelopeSurvivesRaces | signing/signing.go:100-172 | with every store call and every cache write a step of its own, an envelope once signed still verifies exactly as it does after sequential calls |
| SigningRace.UnsignedVerifiesExactlyInRaces | signing/signing.go:301-322 | in any interleaving an unsigned envelope is accepted exactly while the last flag written says eSign is off, and its version and bindings match |
| SigningRace.RaceKeepsKeys | signing/signing.go:100-122 | no interleaving loses a public key or caches a pair that is not stored, stale rows included |
| SigningRace.UninterruptedRotationIsOneCall | signing/signing.go:151-172 | the steps of a rotation nothing interrupts are the sequential call |
| Signing.Service.ReloadActive | signing/signing.go:100-122 | the cache becomes the active row with its expanded key, or empty when there is none; on any error it is unchanged |
| Signing.Service.StoreNewActive | signing/signing.go:151-172 | deactivate, upsert, reload, stopping at the first failure, with exactly the store and cache each leaves |
| Signing.SignsExactly | signing/signing.go:225-262 | signing needs a cached key and its private half, and fails for want of the one or the other |
| Signing.FlagReadsBack | signing/signing.go:350-371 | the flag reads back as it was written, and a failed write leaves it |
| Signing.Service.SetNoESign | signing/signing.go:361-371 | writes the flag, or nothing on failure |
| Signing.Service.LookUpPublicKey | signing/signing.go:325-347 | cached key first, then the listed row with that id; the error of an empty or unknown id or a failed listing |
| Signing.Service.VerifyEnvelope | signing/signing.go:269-323 | the checks in their order and the error of the first that fails |
| Approval.HandedBackIsTheVerdict | framework/backend/approval.go:384-586 | in a submit with one verdict event the approval handed back is that event's envelope, naming that event and its verdict, never the submitted, committed or fill one |
| Approval.StoredMatchesEnvelope | framework/backend/approval.go:136-191 | the stored request type, mode, time and algorithm are the envelope's; the stored key id is the signing key's exactly when no rotation came between |
| Approval.AnswerMatchesStored | framework/backend/approval.go:136-191 | what a request is answered with is what is stored beside its event, under the key id read when it began |
| Approval.AttestsExactly | framework/backend/approval.go:392-530 | exactly when an event of a submit can be attested |
| Approval.ConfirmEnvelopeSays | framework/backend/approval.go:676-692 | a confirmation's envelope names the order and its state, and refers to the approval it acts on |
| Approval.ShortcutAcceptsExactly | framework/backend/approval.go:861-943 | over any submit, any later events, accept-typed ones of execution reports included, and any later key history, confirm and cancel are authorized exactly for orders unchanged in every bound field, submitted in hold mode, accepted, not drop-copy and not venue-linked, unsigned ones only while eSign is off, and by that submit's own approval |
| Approval.AuthorizesExactly | framework/backend/approval.go:861-943 | for any recorded events: authorized exactly by the first recorded accept, verified against the order, as the hold-mode accept of a submit that names its own event; with the error of every refusal |
| Approval.BoundAlikeExactly | framework/backend/approval.go:1064-1082 | two orders are bound alike exactly when base and quote asset, side, amount and its kind, price and account agree |
| Approval.EnvelopeNamesItsSubmit | framework/backend/approval.go:944-1082 | every event's envelope names that event, the recorded order with every bound field, the account, the caller, the mode and the stamp, and is signed exactly when eSign was read as on |
| Approval.EnvelopeSaysItsStep | framework/backend/approval.go:405-530 | the envelopes of one submit share its approval id or refer to it; the verdicts say the engine's answer, the committed one the opened order, the settling ones what the report persists |
| Approval.AcceptVerifies | framework/backend/approval.go:1232-1248 | the envelope of an accept event verifies against an order exactly when that agrees with the submitted one in every bound field, while the envelope is vouched for |
| Approval.ChangedBindingIsRefused | framework/backend/approval.go:1229-1248 | once any field that an approval names differs from the order's, the order id and a renamed account code included, nothing is authorized |
| Submit.SubmitOrder | framework/backend/approval.go:315-586 | the checks in their order with the error of the first that fails, the run with its callback, and the answer, stored events and audit record this leaves |
| Submit.AdmitRequest | framework/backend/approval.go:321-358 | the checks before the signing mode is read, the scope's account and missing policy replacing the request's |
| Submit.NodeIsAskedWith | framework/backend/approval.go:336-452 | the node is asked with the request's order for the scope's account and the caller, and with the scope's missing policy |
| Submit.RunAndAnswer | framework/backend/approval.go:384-586 | the captured variables after the node's transaction give the specified answer, with the audit action of each way out |
| Submit.SubmitSucceedsExactly | framework/backend/approval.go:328-586 | a submit succeeds exactly when its request is admissible, the node decides with a complete answer, every event of the history gets its stamp and can be signed, and storing and auditing do not fail; every request that reaches the node leaves one audit record, and a failed one no event unless the node's own audit failed |
| Submit.RefusedByTheFirstCheck | framework/backend/approval.go:321-384 | before the node is asked, a request is refused with the error of the first of ten checks that fails, and leaves nothing |
| Submit.AnswerIsBound | framework/backend/approval.go:336-586 | the answer is the second event's own envelope, bound to the recorded order with every bound field of the request's own, to the account of the caller's scope whatever account the request named, and to the caller; the verdict in words is the signed one, and a rejection gives exactly the engine's reasons |
| Submit.SignedExactlyWhileESignIsOn | framework/backend/approval.go:115-134 | the answer and every stored event are signed exactly while the stored flag is not "1", and then under the first active key, only if the keys could be read |
| Submit.HistoryOfASubmit | framework/node/local_orders.go:518-652 | what is stored is submitted, then rejected; or submitted, accepted and committed, then in immediate mode filled for a trade or charged for a commission alone; each event attested and for the one order |
| Submit.AnsweredAcceptIsHonoredExactly | framework/backend/approval.go:861-943 | from request to shortcut: whatever follows, confirm and cancel are authorized exactly for orders unchanged in every bound field, submitted in hold mode and answered accept, not venue-linked and still vouched for |
| Approval.NodeSubmitAnswersItsVerdict | framework/node/local_orders.go:518-652 | every run of events a node records is answered with its own signed verdict, equal to the verdict in words, and fails only if an event cannot be attested |
| Approval.ModeIsReadExactly | framework/backend/approval.go:115-134 | a request signs exactly while the flag is not "1"; when the reads succeed, the key id read, and the error of each failing read |
| Approval.ReadSigningMode | framework/backend/approval.go:115-134 | the flag first, then the id of the first active key listed, with the error of each failing read |
| Approval.RecordRun | internal/store/sqlite/orders.go:2261-2283 | the callback's captured variables hold the last verdict attested, and every event is stored with its own attestation |
| Approval.AuthorizeShortcutSubmitVerdict | framework/backend/approval.go:861-943 | the scan and the ordered checks give exactly the specified payload or error kind |
| Approval.OnlyVerdictEventsAreVerdicts | framework/backend/approval.go:443-448 | the capture condition holds of exactly the two verdict events |
| Reproduction.ReproductionNeverChanges | httpapi/httpapi_orders.go:225-299 | the reproduction of an event is unchanged by later events, by later status, leaves, commissions or account code, and by later key rotations, public key included |
| Reproduction.BundleShowsExactly | httpapi/httpapi_orders.go:225-299 | what a bundle shows in each degraded case, and else the very payload and signature, the request field by field and the public key the envelope names |
| Reproduction.SignedBundleVerifies | httpapi/httpapi_orders.go:282-297 | the public key a signed event's bundle shows is the one that holds for the signature over the payload it shows, whatever became of the keys since |
| Reproduction.SubmitIsReproducedExactly | httpapi/httpapi_orders.go:352-410 | reproducing the verdict event gives the very answer the submit gave, exactly when the engine accepted or named a reason |
| Reproduction.ReasonsAgreeExactly | framework/backend/approval.go:1276-1299 | live and reproduced reject reasons are equal exactly when the verdict is accept or the reject list is not empty |
| Reproduction.MutationShowsExactly | httpapi/httpapi_orders.go:431-456 | a reproduced confirm or cancel answer shows the order's own fields, but for the account, status and open quantity attested and no commissions, and is signed as its history is |
| Reproduction.NodeSubmitIsReproduced | httpapi/httpapi_orders.go:352-410 | so every submit the node answers is reproduced exactly |
| Reproduction.ConfirmIsReproducedExactly | httpapi/httpapi_orders.go:431-456 | a confirmation is reproduced as it was answered, whatever the order became since, exactly when the order it answered had no commission |
| Reproduction.CancelIsReproducedExactly | httpapi/httpapi_orders.go:431-456 | a cancellation is reproduced as it was answered exactly when the order had no commission and the caller gave the open quantity or none was recorded |
| Reproduction.ReportIsReproducedExactly | httpapi/httpapi_orders.go:411-429 | the event a report handed back reproduces its answer exactly when that had no balance outcome and no block but the one the event records, and engine-built events record none |
| Reports.ReportAttestsExactly | framework/backend/backend_orders.go:142-160 | exactly which events of a report are attested |
| Reports.ReportEnvelopeSays | framework/backend/backend_orders.go:161-200 | a report's envelope names the order and says the fill, charge, open quantity, status and block the event records |
| Reports.CancelEnvelopeSays | framework/backend/approval.go:782-823 | a cancellation's envelope names the order, the approval it acts on, the reason and what the event records |
| Reports.ReportHandsBackItsFirst | framework/backend/backend_orders.go:140-212 | the callback's priority never passes over an event: a report hands back its first event's attestation, the fill or charge if it has one |
| Reproduction.BuildEventReproduction | httpapi/httpapi_orders.go:225-299 | the bundle filled field by field is the specified one, in every degraded case |
| ResolverBook.HistoryKeepsBijection | engine/mapping.go:273-548 | every history of changes, refused ones included, keeps the dictionary a bijection between codes and valid ids |
| ResolverBook.PublishedIdSurvives | engine/mapping.go:338-418 | a published id stays published until a removal names it, however often its code changes |
| ResolverBook.RenameKeepsId | engine/mapping.go:338-418 | a rename moves one id to a new code and disturbs no other entry |
| ResolverBook.ChangesExactly | engine/mapping.go:273-548 | exactly when a change is made, what it leaves under every code, and the error it is refused with |
| ResolverBook.PublishedIdsFit | engine/mapping.go:550-588 | an id is valid exactly when the engine can hold it for its kind, zero being the default group's alone, so no history publishes another |
| ResolverBook.RemoveUndoesAdd | engine/mapping.go:302-336 | adding and then removing an entry restores the dictionary |
| ResolverBook.RenameBackUndoesRename | engine/mapping.go:377-418 | renaming back restores the dictionary |
| ResolverBook.PublishExactly | engine/mapping.go:68-95 | a snapshot builds exactly when its ids are valid and no code or id repeats, and the result is the snapshot |
| Resolver.ResolverState.ValidIsConsistent | engine/mapping.go:50-66 | maps that agree encode bijections on valid ids |
| Resolver.ResolverState.AddAccount | engine/mapping.go:273-300 | refines the dictionary step; a refused call changes nothing and both maps still agree |
| Resolver.ResolverState.RenameAccount | engine/mapping.go:338-375 | refines the dictionary step; a refused call changes nothing |
| Resolver.ResolverState.AddAsset | engine/mapping.go:302-336 | refines the dictionary step on all three asset maps at once |
| Resolver.ResolverState.RenameAsset | engine/mapping.go:377-418 | refines the dictionary step on all three asset maps; the corrupt-map refusals cannot happen |
| Resolver.ResolverState.RemoveAsset | engine/mapping.go:420-453 | refines the dictionary step on all three asset maps |
| Resolver.ResolverState.AddGroup | engine/mapping.go:455-482 | refines the dictionary step, the default group's reserved id included |
| Resolver.ResolverState.RenameGroup | engine/mapping.go:484-521 | refines the dictionary step |
| Resolver.ResolverState.RemoveGroup | engine/mapping.go:523-548 | refines the dictionary step |
| Resolver.IdResolver.Account | engine/mapping.go:118-129 | answers the id of exactly the published codes |
| Resolver.IdResolver.AccountAlias | engine/mapping.go:131-143 | answers the one code an id is published under, or the internal error exactly when there is none |
| Resolver.IdResolver.Asset | engine/mapping.go:146-157 | answers the text of the id of exactly the published codes |
| Resolver.IdResolver.Group | engine/mapping.go:236-247 | answers the id of exactly the published codes |
| Resolver.IdResolver.AssetByID | engine/mapping.go:162-173 | answers the text of exactly the published asset ids |
| Resolver.IdResolver.AssetAlias | engine/mapping.go:177-188 | answers the code the text's id is published under |
| Resolver.NewIdResolver | engine/mapping.go:73-107 | a resolver over fresh state holding exactly the snapshot, or an error |
| Resolver.PublishThenResolveThroughCopy | engine/mapping.go:50-66 | copies of a resolver share one state: what one publishes the other resolves |
| TextScan.FindAllExact | engine/mapping.go:194-207 | the scan reports exactly the pattern's matches from a position on |
| TextScan.MatchesDoNotOverlap | engine/mapping.go:194-207 | no match starts inside another, so resuming after a match misses none |
| TextScan.MaximalRunIsTheMatch | engine/mapping.go:194 | the pattern's matches are exactly keyword, space and maximal digit run between word boundaries |
| TextScan.WordCharacters | engine/mapping.go:194 | the characters of a word are the ASCII letters, digits and the underscore |
| TextScan.FindHeadFinds | engine/mapping.go:194 | a matcher of the pattern exists: the one that takes the maximal run |
| TextScan.RefusedExactlyOnUnknownId | engine/mapping.go:215-225 | a text is refused exactly when some id it names has no code |
| TextScan.RewriteReplacesOnlyIds | engine/mapping.go:211-231 | a rewrite changes nothing but the ids it finds: the same gaps, with the ids' forms between them |
| TextScan.FixedExactlyWhenMatchless | engine/mapping.go:205-209 | a rewrite returns its input exactly when the input has no match |
| TextScan.OutputIsFixedPointExactly | engine/mapping.go:196-202 | rewriting the output again changes nothing exactly when no written form contains a match |
| EngineText.AssetCodesIn | engine/mapping.go:205-232 | builds exactly the rewrite of the whole text with the codes the resolver's dictionary has for the ids, or refuses it |
| EngineText.PublishedAreTheDictionary | engine/mapping.go:211-228 | the ids a resolver rewrites are exactly the texts of its dictionary's ids, each to the quoted code it is published under |
| EngineText.QuotedReadsBack | engine/mapping.go:225-228 | a quoted code reads back as itself, so distinct codes have distinct forms |
| EngineText.ValidatedCodesGiveFixedPoint | framework/domain/domain.go:1107-1134 | over codes without a space, as validation demands, the rewritten text is a fixed point |
| EngineText.QuotesAloneDoNotProtect | engine/mapping.go:196-202 | a code that spells a match is rewritten again inside its quotes |
| Outcomes.MergeBalanceOutcomes | engine/mapping.go:1307-1331 | the loop with its index map computes the simple merge over all phases in order |
| Outcomes.MergedExactly | engine/mapping.go:1307-1331 | the merge succeeds exactly when every outcome names an asset and every asset's outcomes merge; one entry per asset, in first-appearance order, holding that asset's outcomes merged |
| Outcomes.RefusesTheFirstFault | engine/mapping.go:1307-1387 | a refusal is of the first outcome that cannot be merged with those before it: internal if it names no asset, else invalid |
| Outcomes.DeltasAreConserved | engine/mapping.go:1333-1387 | every merged delta is the exact sum of that asset's input deltas, absent exactly when none was given |
| Outcomes.ResultsAreLast | engine/mapping.go:1333-1377 | every merged result is the last non-empty one reported for the asset |
| Outcomes.RealizedPnlIsLast | engine/mapping.go:1366-1372 | the last outcome that speaks of realized P&L decides both its halt and its result |
| Outcomes.HaltExclusionIsKept | engine/mapping.go:1366-1372 | a halt and a realized result are never both set if no input has both |
| Outcomes.StagedMergeIsOneMerge | engine/mapping.go:1307-1387 | merging in stages succeeds exactly when merging at once does, with equal entries |
| Settlement.SettlementConservesBothPhases | engine/reservation.go:141-229 | settling combines both phases' outcomes, every delta summed over both, pre-trade blocks before post-trade ones, and publishes the P&L the post-trade outcomes decide; it succeeds exactly when all can be mapped and merged, and no failure reads as invalid input |
| AccountPnl.SpotFundsAccountPnlFromList | engine/mapping.go:1439-1486 | the one-pass loop computes the declarative rule |
| AccountPnl.FirstChangeDecides | engine/mapping.go:1430-1486 | the first outcome of the account that is no restated number decides: a known halt, the error of an unknown one, or its absolute P&L |
| AccountPnl.FirstRestatementStands | engine/mapping.go:1430-1486 | without one, the first restated number is published |
| AccountPnl.NoiseNeverAltersADecision | engine/mapping.go:1430-1486 | inserting an unchanged or foreign outcome anywhere never alters a decided result |
| AccountPnl.ForeignOutcomesNeverMatter | engine/mapping.go:1447-1455 | an outcome of another account never matters |
| AccountPnl.HaltOutranksRestatements | engine/mapping.go:1430-1486 | a halt among restated numbers is always published |
| OrderSize.OrderSizeAxes | engine/mapping.go:685-776 | the loop with its index maps builds exactly the caps per key, one barrier per key, or fails |
| OrderSize.CollectExactly | engine/mapping.go:685-776 | limits are configured exactly when each is usable, at most one is the broker's and no (key, metric) comes twice; the caps out are exactly the limits' own ceilings |
| OrderSize.ValidByScope | framework/domain/limits.go:225-275 | the valid limits, scope by scope |
| OrderSize.KeyIsExactly | engine/mapping.go:705-772 | a limit is placed under the key of its own scope, account and asset, and no other |
| OrderSize.SizeIsTheCeilings | engine/mapping.go:946-970 | a barrier's quantity cap is the limit's own max quantity, its notional cap the limit's own max notional |
| OrderSize.RefusesTheFirstFault | engine/mapping.go:685-776 | a refusal is of the first limit that cannot be configured with those before it, with the kind of its own fault |
| OrderSize.OrderDoesNotMatter | engine/mapping.go:972-996 | reordering the limits changes neither success nor any barrier |
| DecimalOrder.DecimalGreaterIsExact | httpapi/httpapi_query.go:355-371 | the comparison is the exact order of coefficient times ten to the exponent, for all of them |
| DecimalOrder.RescaleGapIsBounded | httpapi/httpapi_query.go:355-371 | when the exact comparison is reached the exponent gap is less than the longer operand's digit count |
| DecimalOrder.LeadingDigitPlaceIsLeast | httpapi/httpapi_query.go:373-378 | the place is the exponent of the least power of ten above the magnitude |
| DecimalOrder.BetweenRefusesExactlyEmptyRanges | httpapi/httpapi_query.go:311-325 | a between filter is refused exactly when no number lies in its range |
| EngineBuild.NothingIsReleasedTwice | engine/openpit.go:124-151 | over any history of builds, stops and rotations no market-data generation is closed twice, no engine stopped twice, and a running engine was never stopped |
| EngineBuild.FailedBuildReleasesExactlyItsOwn | engine/openpit.go:287-380 | a failed build closes exactly the generation it created and leaves every other open; its engine is stopped exactly once unless the dispatcher owned it and could not stop gracefully |
| EngineBuild.BuildNeverReusesAClosedService | engine/openpit.go:287-326 | a successful build runs over an open generation: the captured one if open, else a new one it captures |
| EngineBuild.ClosedExactlyByItsOwner | engine/openpit.go:124-151 | a generation is closed exactly when the failed build that made it, or a release through an engine over it, closed it |
| EngineBuild.BuildStopsAtItsFirstFailure | engine/openpit.go:287-380 | a build gets exactly as far as its first failing call, whichever it is, and succeeds exactly when every call it makes does |
| EngineBuild.StopTakesEffect | engine/openpit.go:952-984 | stopping stops an engine in use once, unless both ways fail, and leaves any other alone |
| EngineBuild.BuildSeam.Build | engine/openpit.go:287-380 | the step-by-step build function leaves exactly the specified generations, engines and captured generation, for every set of failing calls |
| EngineBuild.BuildSeam.BuildEngine | engine/openpit.go:1035-1140 | a failed native build stops its engine and closes only a generation it created |
| EngineBuild.BuildSeam.ReleaseOnErr | engine/openpit.go:328-344 | the engine is stopped directly or, once dispatched, only gracefully; a created generation is closed |
| EngineBuild.BuildSeam.Stop | engine/openpit.go:952-984 | stopping is idempotent, with a hard stop when the graceful one fails |
| EngineBuild.BuildSeam.CloseMarketDataService | engine/openpit.go:986-990 | releases exactly the generation its engine runs over |
| EngineBuild.HydrateGroupMembership | engine/openpit.go:1211-1239 | one registration per group, in order of first appearance, with all its members in order; succeeds exactly when every member's id is in range, every group is published and every registration is accepted |
| EngineBuild.MembersExactly | engine/openpit.go:1211-1239 | every account with a group is registered in its own group and no other, and no group twice |
| MarketData.CachedIdsIdentifyPairs | engine/marketdata.go:112-164 | across any sinks and goroutines in any interleaving, cached ids are the registry's and are equal exactly when their pairs are |
| MarketData.RegisteredOnceAndLiveIsLast | engine/marketdata.go:75-164 | each pair is registered at most once, and its live quote is the last one pushed and not cleared since |
| MarketData.AlreadyRegisteredAlwaysResolves | engine/marketdata.go:150-157 | an already-registered instrument always resolves, so that error is never returned |
| MarketData.DistinctPairsAreDistinctInstruments | engine/marketdata.go:166-179 | distinct id pairs give distinct instruments |
| MarketData.QuoteIsRead | engine/marketdata.go:184-208 | a quote is made exactly when each text is empty or parses, mark, bid and ask each from its own text |
| MarketData.InstrumentIsNamed | engine/marketdata.go:166-179 | an instrument is known exactly when both assets are published, and named by their ids in base and quote order |
| MarketData.PushTakesEffect | engine/marketdata.go:75-110 | a push whose calls succeed is live, whether its pair was cached, known or new |
| MarketData.ClearTakesEffect | engine/marketdata.go:112-133 | a clear leaves the pair without a live quote and registers nothing |
| MarketData.MarketDataSink.ResolveID | engine/marketdata.go:135-164 | the cached id, or the registry's own, registering on first sight; nothing changes on failure |
| MarketData.MarketDataSink.Push | engine/marketdata.go:75-110 | exactly this pair's quote is replaced; a refused quote may still have registered the pair; with the error of every refusal |
| MarketData.MarketDataSink.Clear | engine/marketdata.go:112-133 | exactly this pair's quote goes, and nothing is registered |
| Domain.DecimalTextInjective | engine/mapping.go:590-602 | distinct engine ids have distinct decimal texts |

## Left out

- The OpenPit SDK, its dispatcher lanes and its native market-data service: only the calls used, as results or as a registry that gives a new instrument an id it never gave before.
- SQLite, migrations and snapshots, beyond a file whose writes stay in a sidecar until it is closed; rivals act on the own path only, and a random temporary name is taken to be unused.
- Ed25519, key formats, canonical JSON and base64 themselves; stored public keys are taken to have their 32 bytes and restored rows to be well formed and to keep every key row present.
- The choice among several active rows, which the store leaves open, is the first listed.
- Signing.Service.StoreNewActive: does not model the key's creation time, by which keys are listed newest first; lookups by id do not depend on it.
- Approval.ShortcutAcceptsExactly: takes event and order ids as given; a missing signer, whether the caller may see the order and the node's own re-check for execution reports are not modelled.
- The node before the engine answers: its account lanes, registering accounts and assets and the order's own checks are one refusal; the account scope and the account-code rule are any functions.
- ConfirmExecution, CancelOrder and ApplyExecutionReport beyond authorization, attestors and responses; a report's id is the one the store wrote into its events.
- Reproduction.ReproductionNeverChanges: the global eSign flag, the display price and the other order fields are taken as unchanged, as the code reads them live.
- Resolver: the read-write lock; each method is one atomic step, and the three asset writes of a change are one assignment.
- Resolver.ResolverState.AddAccount: an id outside its range is refused with the one error kind the validation wraps.
- DecimalOrder.DecimalGreaterIsExact: the 32-bit exponent and the 64-bit place sum are unbounded here; the sum of a digit count and an exponent always fits.
- EngineBuild.BuildSeam.Stop: each Stop is one step; a handle kept by the dispatcher after a failed hard stop is only counted as not stopped.
- MarketData: quote ages, clock skew warnings and a service closed under its sinks.
- Gate: HTTP routing, the panel and error texts; a build that returns no handler counts as a build error, and every call a worker makes ends. A run with a release build or an existing own file builds once, before serving, and is not modelled.
- Publication.PrepareNonReleaseDatabase: resolving paths to absolute ones, and every error's wording.
- Lifecycle: one controller, as only the served application's handler is ever reached.
- HTTP handlers, OpenAPI, MCP tools, the web panel, list filters other than the decimal comparison, paging, and scripts: wiring with no hard property.
