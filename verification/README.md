# Verified model of the poker deliberation review engine

This project models the parts of the repository whose correctness rests on many functions agreeing with
each other, and proves that they do agree. Every statement below is a `lemma` or a method contract that
`dafny verify dfyconfig.toml` checks.

**The V2 approval ledger** (`Approval*.dfy`). An event-sourced state machine: a ledger of requests, a
hash-chained decision log, a parallel hash-chained audit log and a hash-chained reissue log. Three writers
move it; an independent reader with five validators rebuilds the history. The validators and the builders are
loops, proved equal to predicates and functions over whole sequences, and then

* the reader accepts every state of every run (`EveryRunIsAccepted`). A root keeps it satisfied exactly while
  nothing has been committed; a decision exactly when its commit is *timely* (the run revision continues from
  the last commit and the clock has not gone back); a reissue exactly when the run revision continues; and a
  reissue can be built exactly when there is room for its successors;
* decision admission does not look at the clock, so that condition is real: `BackdatedDecisionCorrupts` shows
  that every admissible batch restamped behind the last commit is still admitted and built and then makes the
  reader refuse the whole state, and `ClockRollbackExample` is a concrete run that does it. The orchestrator
  evaluates a batch at its own stamp and reads the built state back before publishing
  (`src/poker_deliberation/orchestrator.py:5522-5528` and `5577-5582`): that second read, not admission, stops it;
* each answer of admission, reissue and recheck, new, replay and every refusal, is given in order and exactly when its
  written-out condition holds (`ApprovalAnswers`, `RecheckAnswers`); what a commit changes is stated field by field,
  with everything else as it was (`ApprovalEffects`, `ApprovalReissueEffects`), and so is what the reader's acceptance
  says of every record (`ApprovalAcceptance`);
* in every reachable state what is approved was approved by an actor holding its scope, what is superseded had expired,
  and what is settled never changes (`ApprovalAuthority`);
* supersession is an acyclic, injective chain, committed batches (a reissue that opened the ledger from V1
  history among them) replay for ever, the logs only grow, the counts balance, a ledger digest pins both logs,
  and the execution recheck succeeds on exactly the states one would expect.

Hashes are a parameter `h` from preimages (tagged with their domain; a record's own hash field left out) to
strings. Nothing assumes that `h` is injective except the theorems that say so.

**The betting-order machine** (`BettingOrder`, `BettingMachine`, `BettingTheorems`, `BettingSeats`, `RiverBoundary`).
The specification says from the actions so far who still owes an action; the method runs the mutable `active` and
`pending` queues and accepts exactly the legal hands. Legality is restated by seats alone: the next remaining seat
clockwise, from the last actor or, when a street opens, from the button. Fairness at every street change, forced
actors, the length bound of a street, and, with the river boundary check, that its eligibility refusal cannot fire.

**The hand parser around it** (`LineGrammar`, `ContractShape`). The stage machine over classified lines accepts
exactly the rendered well-formed hands and is the inverse of rendering; at most 360 fields are bound, each once, so
its limit of 512 cannot be met. The checker of untrusted object graphs terminates on cyclic graphs and restores its
bookkeeping on every exit. Whatever the annotations, the containers it enters one inside the other are at most 65
and never repeat (`WalkedIsTidy`); with annotations that look into containers it enters all of them, so acceptance
means an acyclic graph found within 8192 visits. It accepts exactly the values that have the shape
(`AcceptsExactlyWhen`), as long as the visits last. A model class is always looked into (`ModelRefusesCycle`). Any other
bare class is compared by exact type only, and that is safe exactly when its instances hold no further value
(`BareTypeIsSafeExactlyWhen`). The bare classes among the annotations of the shipped models are such classes (text,
numbers, dates, enumerations), so every real input is covered by `AcceptedGraphIsTidy`.

**Source spans** (`ByteSpans`; section 3 of RFC 3629). Byte offsets strictly increase, the bytes between two of
them are the encoding of the characters between the positions, equal bytes come from equal text, and the line
spans with their line feeds rebuild the source.

**Exact call EV** (`ExactCallEv`). Reduced fractions are unique, so comparing pairs compares values; the built
model passes its own validator exactly when the pots add up; the validator accepts exactly the figures that are the
price, the wager in units and in money, and its sign; the verdict compares equity with the price.

**The five-role review protocol** (`RoleBridge`, `RoleWorkflow`, `RoleSafety`, `RoleEffects`, `RoleDirectory`,
`RoleConcurrency`). The bridge's append-only revisions and replay, the workflow's receipts, confirm and execute with
their crash points, exactly when they go through and what they then publish, and confirmations made behind the
workflow's back. Roles run in order, once, only with a verified receipt; a lost receipt can be rewritten; a lost audit
blocks for good; no run exceeds sixteen revisions; a receipt on disk stays valid for ever. Two functions of the bridge
disagree on one effect (the controller files an execution reported as `launched` as failed, replay expects
effect-unknown). A step therefore leaves a readable state if and only if it is not an execution that passes all guards
and ends with that effect (`StepKeepsSound`), a run is readable until the first such step and stuck, unreadable and
unchanging, from then on (`RunsAreSoundOrStuck`), and from every prepared bridge two events lead there
(`LaunchedRun`). No transport of the repository reports `launched`; only another implementation of the transport
protocol could. Until then, every read succeeds (`SoundIsReadable`, immediate from the invariant).
An operation reads twice, publishes and writes a receipt, and others may confirm, execute or call the bridge between
any two of these. It then has no effect and says so, or has the effect of one step, or of a crash before the receipt,
at one moment in the order of the others (`ConfirmIsSerial`, `ExecuteIsSerial`), so everything above holds amid others.

**The canonical codec** (`JsonText`, `JsonRoundTrip`, `JsonGrammar`, `CanonicalJson`, `CanonicalCodec`; sections 2 to 7
of RFC 8259). The reader reads exactly the spelled values, whole numbers only, and what they mean (`LoadsExactlyWhen`).
One text per value, records framed by line feeds, accepted logs re-encode to themselves. Reading
back what was written fails in one case: the reader requires the whole text to be NFC, and an escaped line feed
before a combining mark is not (`EscapedLineFeedIsRefused`); `CanonicalRoundTrip` and `JsonlRoundTrip` say that
this is the only case. That input belongs to the generic codec. Approval texts must not contain control characters,
and such values, and logs of them, always read back (`PlainRoundTrip`, `PlainLogRoundTrip`), provided normalization
can be decided around structural characters; `TildeFreeSplits` shows that this can be met.

**The CI shard runner** (`JUnitEvidence`, `JUnitCounting`, `ShardRunner`). Round-robin shards partition the
files; `all_skipped` holds of a JUnit tree exactly when every testcase anywhere in it is a direct child of a
result suite with exactly one untyped "collection skipped" result; all shards are green exactly when every file
was accepted.

Every lemma carries `{:induction false}`: no proof rests on automatic induction. `Basics.dfy` holds optional
values, string order, a stable sort and distinctness.

## Model

| member | source | states |
|---|---|---|
| ApprovalReader.ValidateDecisionChain | src/poker_deliberation/approvals.py:437-478 | the loop accepts exactly the gap-free, linked decision logs with unique identifiers, monotone clock and revisions, and the ledger's head |
| ApprovalReader.ValidateAuditChain | src/poker_deliberation/approvals.py:481-507 | the loop accepts exactly the linked audit logs that mirror the decision log event by event |
| ApprovalReader.ValidateReissueChain | src/poker_deliberation/approvals.py:510-547 | the loop accepts exactly the linked reissue logs whose last record names the ledger digest |
| ApprovalReader.ValidateMutationTimeline | src/poker_deliberation/approvals.py:550-596 | the loop over the sorted merge of both logs accepts exactly when the merged ledger and run revisions are contiguous from the roots to the head and the clock never goes back |
| ApprovalProjection.ValidateRequestProjection | src/poker_deliberation/approvals.py:599-696 | the dictionary loops accept exactly when every request is explained by one decision, one supersession or none, and every record's results match it |
| ApprovalProjection.ReadApprovalState | src/poker_deliberation/approvals.py:397-434 | reading succeeds exactly on the accepted files and yields the ledger digest |
| ApprovalAcceptance.AcceptedLedgerIs | src/poker_deliberation/approval_models.py:284-369 | an accepted ledger lists distinct requests in strict order, each bound to its plan, and counts and names the heads of both logs |
| ApprovalAcceptance.AcceptedDecisionIs | src/poker_deliberation/approval_models.py:378-596 | every accepted decision record and outcome, field by field: chained, about its own batch, one revision on, item by item |
| ApprovalAcceptance.AcceptedDecisionsFollow | src/poker_deliberation/approvals.py:444-473 | no identifier or key twice, and neither clock nor revisions go back |
| ApprovalAcceptance.AcceptedEventIs | src/poker_deliberation/approvals.py:481-507 | every accepted audit event repeats its record field by field |
| ApprovalAcceptance.AcceptedResultShows | src/poker_deliberation/approvals.py:609-636 | every decided request stands in the ledger as its result says |
| ApprovalAcceptance.AcceptedReissueIs | src/poker_deliberation/approval_models.py:760-947 | every accepted reissue record, field by field, and what it keeps of V1 history |
| ApprovalAcceptance.AcceptedReissuesFollow | src/poker_deliberation/approvals.py:516-535 | no identifier or key twice, and the clock does not go back |
| ApprovalAcceptance.AcceptedSuccessorShows | src/poker_deliberation/approvals.py:637-663 | every successor stands in the ledger and is, but for what happened since, the request recorded |
| ApprovalAcceptance.AcceptedSourceShows | src/poker_deliberation/approvals.py:664-687 | every V2 source is superseded by its successor, one revision after the one recorded |
| ApprovalAcceptance.AcceptedHistoryShows | src/poker_deliberation/approvals.py:664-676 | every historical source is a snapshot of the recorded history |
| ApprovalAcceptance.AcceptedTimelineIs | src/poker_deliberation/approvals.py:550-596 | both logs in commit order: from the roots to the ledger without a gap, the clock never back |
| ApprovalAcceptance.AcceptedRequestIsExplained | src/poker_deliberation/approvals.py:688-696 | a request is decided if and only if some result names it, superseded if and only if some reissue does, and no result or source twice |
| ApprovalWriter.AddApprovalRequest | src/poker_deliberation/approvals.py:352-394 | the search loop adds, recognizes or refuses a request as the specification function does |
| ApprovalWriter.GroupItems | src/poker_deliberation/approvals.py:774-792 | the two dictionaries hold, per request, its distinct decisions and its number of items, and reveal conflicts and duplicates exactly |
| ApprovalWriter.ValidateDecision | src/poker_deliberation/approvals.py:699-918 | the imperative admission returns exactly the verdict of the specification: replay, conflict, first fault in order, or a new admission |
| ApprovalWriter.DecideRequests | src/poker_deliberation/approvals.py:934-960 | the loop decides exactly the named requests in place and collects one result for each, and fails exactly when some constructed request is invalid |
| ApprovalWriter.BuildDecisionUpdate | src/poker_deliberation/approvals.py:921-1067 | the builder commits exactly when every constructed record passes its validator, and returns the specified files |
| ApprovalDecisionClosure.AdmittedExactlyWhen | src/poker_deliberation/approvals.py:699-918 | the sequence of rejections admits a batch as new if and only if all its independent conditions hold |
| ApprovalAnswers.KnownKeyAnswers | src/poker_deliberation/approvals.py:713-739 | a batch under a committed key replays that outcome if batch and actor are the same, and conflicts otherwise |
| ApprovalAnswers.BatchRefusals | src/poker_deliberation/approvals.py:741-797 | which refusal a batch meets as a whole: wrong run, stale revisions, used identifier, contradicting or repeated items, in this order |
| ApprovalAnswers.ItemRefusals | src/poker_deliberation/approvals.py:798-856 | the first item that cannot be decided gives the answer: unknown, already decided, stale, other digest, not yet created, expired |
| ApprovalAnswers.AuthorityAnswers | src/poker_deliberation/approvals.py:857-918 | when every item can be decided: no provider answer, another actor, revoked, without the scope, or admitted with exactly these fields |
| ApprovalDecisionClosure.ResultsAreTheBatch | src/poker_deliberation/approvals.py:934-975 | filtering the ledger, bumping and sorting yields results equal to the batch item by item |
| ApprovalDecisionClosure.DecisionBuildIsTotal | src/poker_deliberation/approvals.py:921-1067 | a new admission from an accepted state always passes the outcome, record, audit-event and ledger validators |
| ApprovalEffects.DecisionChangesOnlyNamed | src/poker_deliberation/approvals.py:934-960 | a committed decision moves the named requests on by state and revision and leaves every other field and request as it was |
| ApprovalEffects.DecisionIsRecorded | src/poker_deliberation/approvals.py:961-1067 | every field of the appended record, outcome and event, chained to the last ones, and of the new ledger |
| ApprovalDecisionCommit.DecisionCommitAccepted | src/poker_deliberation/approvals.py:921-1067 | from an accepted state an admitted batch builds, and the reader accepts the result if and only if the commit is timely |
| ApprovalEvolution.TimelineStep | src/poker_deliberation/approvals.py:550-596 | one more mutation starting at the ledger head keeps the merged timeline valid if and only if it follows the last commit in run revision and clock |
| ApprovalEvolution.TimelyIsLast | src/poker_deliberation/approvals.py:584-596 | sorting the merge puts a timely new mutation last, so the sorted merge is the commit order |
| ApprovalClock.BackdatedDecisionCorrupts | src/poker_deliberation/approvals.py:699-918 | any admissible batch restamped behind the last commit is still admitted and built, and the reader refuses the outcome |
| ApprovalClock.ClockRollbackExample | src/poker_deliberation/approvals.py:699-918 | a concrete two-decision run in which this happens, each batch evaluated at its own stamp |
| ApprovalReissue.FindReplay | src/poker_deliberation/approvals.py:1169-1197 | the log search finds the first record under the idempotency key, if any |
| ApprovalReissue.SelectV2Sources | src/poker_deliberation/approvals.py:1230-1275 | the loop selects the exact pending requests the items name, or the first fault |
| ApprovalReissue.ValidateReissue | src/poker_deliberation/approvals.py:1156-1347 | the imperative admission returns exactly the verdict of the specification |
| ApprovalAnswers.ReissueAdmittedExactlyWhen | src/poker_deliberation/approvals.py:1156-1347 | a V2 reissue is admitted if and only if it is fresh, for these revisions, behind no commit, its successors live, and every item names a request that is pending, exactly so, and expired; and those requests are its sources |
| ApprovalAnswers.LegacyAdmittedExactlyWhen | src/poker_deliberation/approvals.py:1212-1255 | a V1 history is admitted if and only if its requests are distinct, some are pending, the items name exactly those, and the clock is not behind; and those are its sources |
| ApprovalAnswers.ReissueRefusals | src/poker_deliberation/approvals.py:1188-1335 | which refusal a V2 reissue meets, in order, the first item that is not due deciding |
| ApprovalAnswers.LegacyRefusals | src/poker_deliberation/approvals.py:1188-1335 | which refusal the reissue of a V1 history meets, in order |
| ApprovalAnswers.KnownReissueAnswers | src/poker_deliberation/approvals.py:1169-1197 | a reissue under a committed key replays its outcome if the batch is the same, and conflicts otherwise |
| ApprovalReissue.BuildReissueUpdate | src/poker_deliberation/approvals.py:1350-1499 | the loop that rebinds the ledger per item produces exactly the specified files, or fails exactly when the specification does |
| ApprovalReissueEffects.ReissueReplacesSources | src/poker_deliberation/approvals.py:1350-1499 | a committed V2 reissue adds each successor field by field, supersedes its source by it, leaves every other request, and appends the record with every field |
| ApprovalReissueEffects.LegacyReissueOpens | src/poker_deliberation/approvals.py:1350-1499 | the same for a V1 history, which its record keeps as a whole |
| ApprovalReissueTheorems.LoopSucceeds | src/poker_deliberation/approvals.py:1378-1421 | the successor loop goes through if and only if the ledger has room and every successor has a name of its own |
| ApprovalReissueTheorems.ReissueCommitAccepted | src/poker_deliberation/approvals.py:1350-1499 | an admitted reissue builds if and only if there is room, and the reader accepts the result if and only if the run revision continues from the last commit |
| ApprovalReissueTheorems.LegacyReissueAccepted | src/poker_deliberation/approvals.py:1156-1347 | a historical V1 run enters the V2 ledger in a state the reader accepts |
| ApprovalReissueCommit.ReissueClock | src/poker_deliberation/approvals.py:1289-1299 | reissue admission, unlike decision admission, implies that the clock has not gone back behind any commit |
| ApprovalRoots.RootAccepted | src/poker_deliberation/approvals.py:575-586 | a new root is accepted if and only if nothing was committed; afterwards only the timeline's root check refuses it |
| ApprovalRuns.EveryRunIsAccepted | src/poker_deliberation/approvals.py:397-434 | in every state of every run of roots, decisions and reissues the reader accepts the artifacts |
| ApprovalRuns.LogsOnlyGrow | src/poker_deliberation/approvals.py:921-1067 | along every run the decision log, the audit log and the reissue log are prefixes of their later versions |
| ApprovalRuns.CommittedDecisionReplays | src/poker_deliberation/approvals.py:713-739 | a committed decision batch replays its recorded outcome in every later state, and another batch under its key is an idempotency conflict |
| ApprovalRuns.CommittedReissueReplays | src/poker_deliberation/approvals.py:1169-1197 | the same for every committed reissue batch, the one that opened the ledger from V1 history included |
| ApprovalRuns.SupersessionEnds | src/poker_deliberation/approvals.py:1378-1421 | in every state of every run, references from any request end at a request that is not superseded and never return |
| ApprovalAuthority.EveryDecisionWasAuthorized | src/poker_deliberation/approvals.py:878-908 | in every reachable state every recorded decision was made while its request was pending and alive, by the actor the provider answered with, who held the authority it takes, and the request is still as decided |
| ApprovalAuthority.ApprovedByAuthority | src/poker_deliberation/approvals.py:878-908 | in every reachable state an approved request was approved by a verified, unrevoked, unexpired actor holding the scope of its category |
| ApprovalAuthority.EverySupersessionWasDue | src/poker_deliberation/approvals.py:1312-1335 | in every reachable state a superseded request had expired undecided when it was replaced, by a request alive then, which it names |
| ApprovalAuthority.SettledForGood | src/poker_deliberation/approvals.py:934-960 | in every run a request once approved, rejected or superseded never changes again |
| ApprovalLineage.SupersessionIsAcyclic | src/poker_deliberation/approvals.py:664-687 | following references `n >= 1` times never comes back to the start, and the end of the chain is not superseded |
| ApprovalLineage.SupersessionIsInjective | src/poker_deliberation/approvals.py:664-687 | in any accepted state no successor has two sources |
| ApprovalConservation.Conservation | src/poker_deliberation/approvals.py:575-598 | requests are pending, decided or superseded, each exactly one, and the ledger revision is requests plus decision records |
| ApprovalConservation.PendingBalance | src/poker_deliberation/approvals.py:934-960 | pending plus decided equals roots plus legacy successors, which also bounds the decision records |
| ApprovalConservation.DecisionsAreFew | src/poker_deliberation/approvals.py:599-646 | no request is decided twice, so the decision log is never longer than the request list |
| ApprovalBalance.DecisionLowersPending | src/poker_deliberation/approvals.py:934-960 | a committed decision lowers the pending count by its number of items |
| ApprovalBalance.ReissueKeepsPending | src/poker_deliberation/approvals.py:1391-1421 | a V2 reissue leaves the pending count unchanged |
| ApprovalTamper.LedgerDigestPinsLogs | src/poker_deliberation/approvals.py:437-507 | with collision-free hashing, two accepted states with one ledger digest have the same decision and audit logs |
| ApprovalRecheck.RecheckForExecution | src/poker_deliberation/approvals.py:1502-1695 | the imperative recheck returns exactly the specified verdict |
| ApprovalRecheck.ApprovedHasOneRecord | src/poker_deliberation/approvals.py:1579-1612 | in an accepted state an approved request has exactly one decision record, which is exact evidence except possibly for the run revision |
| ApprovalRecheck.RecheckSucceedsExactlyWhen | src/poker_deliberation/approvals.py:1502-1695 | on accepted states the recheck succeeds if and only if the request is approved for this plan, alive, decided at the observed run revision by a record whose very actor the same provider answers with now, verified, unrevoked, unexpired and holding the scope |
| ApprovalRecheck.RecheckAnswers | src/poker_deliberation/approvals.py:1556-1655 | the answer about an approved request, refusals in order, from what was recorded and what the provider says now |
| ApprovalRecheck.RecheckRefusesUnapproved | src/poker_deliberation/approvals.py:1538-1566 | missing if and only if the run has no such request; a request not approved does not match |
| ApprovalRecheck.BindingIsExact | src/poker_deliberation/approvals.py:1656-1695 | every field of a returned binding, from the query, the state, the request and the record of its decision |
| ApprovalRecheck.BindingRestsOnEvidence | src/poker_deliberation/approvals.py:1502-1655 | on any state, well formed or not, a returned binding rests on the five validators, and on exactly one record, approving this request and plan at this run revision, with both digests as recomputed |
| ApprovalRecheck.BindingWindow | src/poker_deliberation/approval_models.py:996-1006 | a returned binding starts before it ends, and neither request nor authority expires inside it |
| BettingOrder.StreetOrderComplete | src/poker_deliberation/bounded_natural_language.py:662-672 | on every street the seat order lists every player exactly once |
| BettingMachine.ValidateActionOrder | src/poker_deliberation/bounded_natural_language.py:674-742 | the queues accept exactly the legal hands; a refusal names the first illegal action and the rule it breaks |
| BettingMachine.QueueAfterPassive | src/poker_deliberation/bounded_natural_language.py:724-735 | a check, call or fold leaves exactly the rest of the obligations |
| BettingMachine.QueueAfterAggression | src/poker_deliberation/bounded_natural_language.py:736-739 | a bet or raise makes exactly everybody else still in the hand owe an action, from the next seat on |
| BettingSeats.ActsInTurn | src/poker_deliberation/bounded_natural_language.py:662-742 | in an accepted hand each player in turn sits in the next remaining seat clockwise: after the big blind before the flop, after the button when a later street opens, after the last actor otherwise |
| BettingSeats.LegalExactlyWhen | src/poker_deliberation/bounded_natural_language.py:699-739 | an action is legal if and only if two players are left, it is no blind, and it comes from that seat: on this street while somebody owes an action, on the next once nobody does |
| BettingSeats.QueueGoesAround | src/poker_deliberation/bounded_natural_language.py:711-739 | those who still have to act are the next ones clockwise, in order |
| BettingSeats.SeatedExactlyWhen | src/poker_deliberation/bounded_natural_language.py:662-683 | `n` players fill, one each, the last `n` of the six seats that follow the big blind |
| BettingSeats.FirstAndLastSeats | src/poker_deliberation/bounded_natural_language.py:669-671 | after the flop the small blind is first and the button last; heads-up the big blind opens; before the flop the big blind is last |
| BettingTheorems.QueueIsSound | src/poker_deliberation/bounded_natural_language.py:711-739 | the queue has no duplicates and names only active players |
| BettingTheorems.FoldedStayOut | src/poker_deliberation/bounded_natural_language.py:713-735 | a folded player never acts again and no street is skipped |
| BettingTheorems.CompleteHandFoldsToOne | src/poker_deliberation/bounded_natural_language.py:731-742 | an accepted hand has one fold fewer than players and ends on a fold |
| BettingTheorems.StreetClosesFairly | src/poker_deliberation/bounded_natural_language.py:715-725 | at each street change every active player has acted on that street at or after its last bet or raise |
| BettingTheorems.NobodyActsTwice | src/poker_deliberation/bounded_natural_language.py:711-739 | between two actions of one player on a street somebody else bet or raised |
| BettingTheorems.ActorsAreForced | src/poker_deliberation/bounded_natural_language.py:711-739 | players, streets and kinds of action determine all actors |
| BettingTheorems.StreetIsBounded | src/poker_deliberation/bounded_natural_language.py:711-739 | a street with `a` bets and raises among `n` players takes at most `n + a(n-1)` actions |
| RiverBoundary.EligiblePlayers | src/poker_deliberation/bounded_river_call_ev.py:298-301 | the discard loop computes exactly the players not folded before the prefix ends |
| RiverBoundary.ValidateRiverBoundary | src/poker_deliberation/bounded_river_call_ev.py:258-305 | the boundary accepts, and refuses for the kind of hand, for the range's conditions and for eligibility, exactly as stated |
| RiverBoundary.FocalDecisionIsHeadsUp | src/poker_deliberation/bounded_natural_language.py:1196-1225 | in an accepted hand whose last action answers the focal bet, the answer is a fold and exactly Hero and the bettor are left |
| RiverBoundary.EligibilityNeverRefuses | src/poker_deliberation/bounded_river_call_ev.py:298-304 | on parser output the eligibility refusal cannot fire |
| RiverBoundary.RiverHandIsAdmitted | src/poker_deliberation/bounded_river_call_ev.py:258-305 | a concrete hand played to the river that the betting order accepts and the boundary admits, so the hypotheses above can be met |
| LineGrammar.ParseLines | src/poker_deliberation/bounded_natural_language.py:774-1145 | the loop over lines succeeds exactly when the stage machine does and the closing checks hold, with the same extracted state |
| LineGrammar.AcceptedExactlyWhen | src/poker_deliberation/bounded_natural_language.py:787-1128 | the accepted line sequences are exactly the renderings of well-formed hands |
| LineGrammar.RenderedIsAccepted | src/poker_deliberation/bounded_natural_language.py:787-1128 | every well-formed hand is read back from its lines |
| LineGrammar.RunInvariant | src/poker_deliberation/bounded_natural_language.py:774-786 | after every accepted line the bindings are unique and at most 360, and the state renders to the lines read |
| LineGrammar.AcceptedPlayersAreDistinct | src/poker_deliberation/bounded_natural_language.py:838-850 | accepted lines declare distinct players, as the betting-order machine needs |
| ContractShape.Checker.Check | src/poker_deliberation/bounded_natural_language.py:217-327 | the mutating recursion returns the specified verdict and visit count and leaves the set of containers being visited as it was |
| ContractShape.AcceptsExactlyWhen | src/poker_deliberation/bounded_natural_language.py:217-327 | acceptance holds if and only if the value has the shape, at most 64 levels deep with no container inside itself, and the visits stay within 8192 |
| ContractShape.AcceptedGraphIsTidy | src/poker_deliberation/bounded_natural_language.py:217-327 | acceptance with shapes that look into containers means every chain of containers is at most 65 long and repeats none, within 8192 visits |
| ContractShape.WalkedIsTidy | src/poker_deliberation/bounded_natural_language.py:246-300 | whatever the shapes, the containers an accepting check enters one inside the other are at most 65, never repeat and avoid those already being visited |
| ContractShape.DeepWalksEverything | src/poker_deliberation/bounded_natural_language.py:266-327 | with shapes that look into containers an accepting check enters every chain of containers of the graph |
| ContractShape.AcceptedWithinBudget | src/poker_deliberation/bounded_natural_language.py:250-255 | every visit is counted and no acceptance happens beyond the budget, union retries included |
| ContractShape.VisitsAreBounded | src/poker_deliberation/bounded_natural_language.py:250-265 | rejection is bounded too: at most 8193 visits plus the union alternatives still open on the way back |
| ContractShape.BareTypeAcceptsCycle | src/poker_deliberation/bounded_natural_language.py:322-325 | for every class compared by exact type whose instances hold values, an instance in a cycle is accepted, and refused when looked into |
| ContractShape.BareTypeIsSafeExactlyWhen | src/poker_deliberation/bounded_natural_language.py:322-325 | comparing by exact type accepts only acyclic graphs if and only if instances of the class hold no further value |
| ContractShape.CycleIsRefused | src/poker_deliberation/bounded_natural_language.py:246-300 | shapes that look into containers refuse every value from which a cycle can be reached |
| ContractShape.ModelRefusesCycle | src/poker_deliberation/bounded_natural_language.py:266-296 | a bare model class accepts a node that ends its chain and refuses one that is its own successor |
| ByteSpans.ByteOffsets | src/poker_deliberation/bounded_natural_language.py:574-580 | the loop returns, for every position, the byte length of the text before it |
| ByteSpans.OffsetsIncrease | src/poker_deliberation/bounded_natural_language.py:574-580 | offsets start at 0, strictly increase and end at the byte length |
| ByteSpans.SpanBytes | src/poker_deliberation/bounded_natural_language.py:445-456 | the bytes between two offsets are the encoding of the characters between the positions |
| ByteSpans.EncodeInjective | src/poker_deliberation/bounded_natural_language.py:445-468 | equal bytes come from equal text, so the bytes of a binding identify its lexeme |
| ByteSpans.Lines | src/poker_deliberation/bounded_natural_language.py:583-592 | the cursor loop gives each line its content and the character span where it stands |
| ByteSpans.PiecesBreak | src/poker_deliberation/bounded_natural_language.py:583-592 | a line holds no line feed and no Unicode separator but at its end, and every line but the last ends with one |
| ByteSpans.PiecesRebuild | src/poker_deliberation/bounded_natural_language.py:583-592 | the lines with their terminators put together are the source |
| ByteSpans.LineSpansCover | src/poker_deliberation/bounded_natural_language.py:583-592 | line spans are ordered and disjoint, hold the line's text without line feed, and leave out nothing but one line feed each |
| ExactCallEv.ReducedIsUnique | src/poker_deliberation/bounded_river_call_ev_models.py:152-161 | two reduced fractions have equal values if and only if they are the same pair |
| ExactCallEv.ReducedMeans | src/poker_deliberation/bounded_river_call_ev_models.py:152-161 | reduced means a positive denominator and no common factor |
| ExactCallEv.ReduceDecides | src/poker_deliberation/bounded_river_call_ev_models.py:152-161 | reduction yields the same pair if and only if the values are equal |
| ExactCallEv.BuildValidates | src/poker_deliberation/bounded_river_call_ev.py:317-353 | the built model passes its own validator if and only if the plan's pots add up |
| ExactCallEv.ValidatorPinsModel | src/poker_deliberation/bounded_river_call_ev_models.py:230-264 | two validated models with equal equity, chip unit and plan are the same |
| ExactCallEv.ValidatesExactlyWhen | src/poker_deliberation/bounded_river_call_ev_models.py:230-264 | the validator accepts exactly the reduced figures that are the price, equity times pot after the bet less cost times the rest, that in money, and its sign, for pots that add up |
| ExactCallEv.CallEvIsTheWager | src/poker_deliberation/bounded_river_call_ev_models.py:232-235 | the call EV has the value equity × (pot + bet) − (1 − equity) × cost |
| ExactCallEv.AmountIsTheWager | src/poker_deliberation/bounded_river_call_ev_models.py:241-246 | the amount has that value times the chip unit |
| ExactCallEv.RequiredIsThePrice | src/poker_deliberation/bounded_river_call_ev_models.py:233-233 | the required equity has the value cost over all pots together |
| ExactCallEv.VerdictComparesEquity | src/poker_deliberation/bounded_river_call_ev_models.py:258-263 | the verdict is call, fold or tie exactly as equity is above, below or equal to cost over contestable pot |
| ExactCallEv.ChipUnitKeepsSign | src/poker_deliberation/bounded_river_call_ev.py:345-349 | scaling by a positive chip unit keeps the verdict |
| RoleBridge.Replay | src/poker_deliberation/codex_bridge/replay.py:77-505 | the role loop accepts exactly the artifact states that are serial, bound and consistent with the status |
| RoleBridge.ConfirmKeeps | src/poker_deliberation/codex_bridge/controller.py:365-476 | a bridge confirmation leaves a bridge that replays, one revision longer |
| RoleBridge.AdmitKeeps | src/poker_deliberation/codex_bridge/controller.py:709-781 | an admission leaves a bridge that replays, with that one open admission |
| RoleBridge.AuditKeeps | src/poker_deliberation/codex_bridge/controller.py:629-658 | a published audit leaves a bridge that replays if and only if the effect is not `launched` |
| RoleEffects.ReplayMeans | src/poker_deliberation/codex_bridge/replay.py:240-330 | what a replayed revision says of each role: confirmed for its request, admitted in turn inside both windows, audited after admission |
| RoleEffects.ClosedSays | src/poker_deliberation/codex_bridge/replay.py:457-495 | a closed run is finished, or has the status its one failed role calls for, and needs reconciliation exactly when an effect is unknown |
| RoleDirectory.Directory.VerifyBindings | src/poker_deliberation/bounded_river_review_workflow.py:1071-1109 | the loop accepts exactly when every receipt verifies and every completed or admitted role has one |
| RoleDirectory.Directory.Confirm | src/poker_deliberation/bounded_river_review_workflow.py:1985-2172 | the operation's whole new state and fault, its two reads, the bridge's revision check, crash point and whatever others do in between included |
| RoleDirectory.Directory.Execute | src/poker_deliberation/bounded_river_review_workflow.py:2175-2273 | the same for execute |
| RoleEffects.ConfirmsExactlyWhen | src/poker_deliberation/bounded_river_review_workflow.py:2033-2172 | the first confirmation of the next role succeeds if and only if it is copied from the current revision, with unused identifiers and inside all windows, and then publishes exactly that revision and receipt |
| RoleEffects.ConfirmRefusals | src/poker_deliberation/bounded_river_review_workflow.py:2033-2120 | why an open run refuses to confirm its next role, in order, without effect |
| RoleEffects.NotOpenIsRefused | src/poker_deliberation/bounded_river_review_workflow.py:2025-2032 | local-only, an effect to reconcile and a closed run are refused in this order, without effect |
| RoleEffects.CrashLeavesNoReceipt | src/poker_deliberation/bounded_river_review_workflow.py:2121-2166 | a crash after the publication leaves exactly that revision and no receipt |
| RoleEffects.ExecutesExactly | src/poker_deliberation/codex_bridge/controller.py:709-781 | an execution publishes exactly the admission and audit of the next role, if and only if it is ready |
| RoleEffects.ExecuteAnswers | src/poker_deliberation/bounded_river_review_workflow.py:2228-2273 | what an executed role answers: nothing, a crash, or that it must be reconciled |
| RoleEffects.ExecuteRefusals | src/poker_deliberation/bounded_river_review_workflow.py:2201-2270 | why an open run refuses to execute its next role, in order, without effect |
| RoleEffects.ExecuteNotOpen | src/poker_deliberation/bounded_river_review_workflow.py:2203-2209 | local-only, an effect to reconcile and a closed run are refused in this order, without effect |
| RoleEffects.VerifiedReceiptMeans | src/poker_deliberation/bounded_river_review_workflow.py:973-1068 | a receipt that verifies is for this workflow, request and confirmation, and its points are one revision, or one and its successor |
| RoleEffects.BindingsMean | src/poker_deliberation/bounded_river_review_workflow.py:1071-1109 | the receipts are in order if and only if each is its role's own and verifies, and every role admitted or succeeded has one |
| RoleEffects.ChainMeans | src/poker_deliberation/codex_bridge/storage.py:1003-1029 | every revision follows an unfinished one, names it as its predecessor, and keeps every artifact |
| RoleConcurrency.ConfirmIsSerial | src/poker_deliberation/bounded_river_review_workflow.py:1814-1885 | whatever others do in between, a confirmation has no effect and says so, or is the one-step confirmation, or its crash before the receipt, at one moment in their order |
| RoleConcurrency.ExecuteIsSerial | src/poker_deliberation/bounded_river_review_workflow.py:1814-1885 | whatever others do in between, an execution has no effect and says so, or is the one-step execution, store and fault, behind what they did |
| RoleConcurrency.ReceiptCommutes | src/poker_deliberation/bounded_river_review_workflow.py:1112-1182 | while a role is confirmed without a receipt others can only write that receipt or confirm another role at the bridge, so the receipt may be thought written at once |
| RoleConcurrency.AloneIsOneStep | src/poker_deliberation/bounded_river_review_workflow.py:1985-2273 | with nobody else at work both operations are their one-step forms |
| RoleConcurrency.AmidOthersIsSafe | src/poker_deliberation/bounded_river_review_workflow.py:1985-2273 | amid others too an operation only adds and leaves a store that is sound or was closed by a published launch |
| RoleSafety.ReceiptStaysVerified | src/poker_deliberation/bounded_river_review_workflow.py:973-1068 | a receipt verified at one revision verifies at every later one |
| RoleSafety.MadeReceiptVerifies | src/poker_deliberation/bounded_river_review_workflow.py:1112-1182 | the receipt written by confirm passes its own verification |
| RoleSafety.StepKeepsSound | src/poker_deliberation/bounded_river_review_workflow.py:1985-2273 | every step, crashes and outside confirmations included, only adds, and keeps the store readable if and only if it is not an execution that passes the guards and finishes with a `launched` effect, which leaves it stuck |
| RoleSafety.ExecutesExactlyWhen | src/poker_deliberation/bounded_river_review_workflow.py:2175-2240 | execute publishes exactly when the guards a caller can read off store and clocks hold, and then exactly the next role's execution |
| RoleSafety.LaunchedRun | src/poker_deliberation/codex_bridge/controller.py:629-658 | from every prepared bridge a run of two events publishes `launched` and ends in a state no read succeeds on |
| RoleSafety.RunsAreSoundOrStuck | src/poker_deliberation/bounded_river_review_workflow.py:1717-1811 | a state of a run satisfies the invariant if and only if no `launched` effect was published before it, and is stuck otherwise |
| RoleSafety.RunsGrow | src/poker_deliberation/bounded_river_review_workflow.py:1985-2273 | in every run, whatever it publishes, later revisions and receipts only add to earlier ones |
| RoleSafety.ReceiptsAreForever | src/poker_deliberation/bounded_river_review_workflow.py:973-1068 | in every run, whatever it publishes, a receipt stays unchanged and verified in every later state |
| RoleSafety.AdmittedInOrder | src/poker_deliberation/codex_bridge/replay.py:250-260 | admitted roles form an initial segment of the order, all but the last succeeded, all with receipts |
| RoleSafety.AdmissionNeedsReceipt | src/poker_deliberation/bounded_river_review_workflow.py:2175-2240 | a role is admitted only by execute, in its turn, with a verified receipt already stored, inside the confirmation window |
| RoleSafety.SixteenRevisions | src/poker_deliberation/bounded_river_review_workflow.py:129-129 | a steady store has at most sixteen revisions and, once all roles are done, exactly sixteen |
| RoleSafety.RunsFitSixteen | src/poker_deliberation/bounded_river_review_workflow.py:129-129 | no state of any run exceeds sixteen revisions |
| RoleSafety.OpenAdmissionIsFinal | src/poker_deliberation/bounded_river_review_workflow.py:2024-2033 | after a crash between admission and audit no sequence of events, outside confirmations included, moves a role or writes a receipt again, and the store stays readable |
| RoleSafety.ReconfirmAfterCrash | src/poker_deliberation/bounded_river_review_workflow.py:2109-2166 | after a crash between confirmation and receipt, confirming again succeeds exactly with the recorded identifiers, current preview and live clocks, and the receipt's preview and confirmed revisions coincide |
| RoleSafety.BypassIsFinal | src/poker_deliberation/bounded_river_review_workflow.py:1099-1109 | after a role was admitted without a receipt no sequence of events moves a role or writes a receipt again, and no read ever succeeds |
| RoleSafety.NextRoleCanComplete | src/poker_deliberation/bounded_river_review_workflow.py:1985-2273 | from any sound open state one confirm and one execute can complete the next role |
| JsonRoundTrip.LoadsRender | src/poker_deliberation/approval_canonical.py:87-99 | reading the compact text of any dictionary tree gives it back |
| JsonRoundTrip.ParsedIsDictLike | src/poker_deliberation/approval_canonical.py:102-111 | whatever the reader returns has no repeated key at any depth |
| JsonGrammar.LoadsExactlyWhen | src/poker_deliberation/approval_canonical.py:114-134 | the reader reads a text as a value if and only if the text spells that value, in any of its spellings, and no object in it repeats a key |
| CanonicalJson.PairsWithoutDuplicates | src/poker_deliberation/approval_canonical.py:102-111 | the loop builds the dictionary of its pairs exactly when keys are normalized and unique |
| CanonicalJson.CanonDecidesEquality | src/poker_deliberation/approval_canonical.py:87-99 | sorted-key forms agree if and only if the values are equal as nested dictionaries and lists |
| CanonicalJson.RenderPrintable | src/poker_deliberation/approval_canonical.py:87-99 | canonical text contains no control character |
| CanonicalJson.EscapeIs | src/poker_deliberation/approval_canonical.py:87-99 | how each character is written: short escapes, lower-case hexadecimal for other control characters, everything else as it is |
| CanonicalJson.KeysAscend | src/poker_deliberation/approval_canonical.py:87-99 | keys stand in strictly ascending code-point order |
| CanonicalCodec.CanonicalRoundTrip | src/poker_deliberation/approval_canonical.py:114-134 | canonical text reads back as the value with sorted keys if and only if the text as a whole is NFC |
| CanonicalCodec.AcceptedExactlyWhen | src/poker_deliberation/approval_canonical.py:114-134 | the accepted texts are exactly the NFC renderings of NFC values with sorted unique keys |
| CanonicalCodec.CanonicalRefusals | src/poker_deliberation/approval_canonical.py:114-134 | why a text is refused, in order: byte order mark, trailing newline, not NFC, not spelled as a value, not the canonical spelling |
| CanonicalCodec.OneTextPerValue | src/poker_deliberation/approval_canonical.py:87-99 | canonical texts are equal if and only if the values are |
| CanonicalCodec.EscapedLineFeedIsRefused | src/poker_deliberation/approval_canonical.py:114-134 | a concrete encodable value whose canonical text the reader refuses |
| CanonicalCodec.FramesAreRead | src/poker_deliberation/approval_canonical.py:157-168 | joining clean lines and splitting at line feeds are inverse: framing is unambiguous |
| CanonicalCodec.FramingRefusals | src/poker_deliberation/approval_canonical.py:157-168 | a log that is not framed by line feeds, or starts with a blank line, is refused as such |
| CanonicalCodec.JsonlRoundTrip | src/poker_deliberation/approval_canonical.py:157-174 | an encoded log reads back record by record if and only if every record's text is NFC |
| CanonicalCodec.AcceptedJsonlReencodes | src/poker_deliberation/approval_canonical.py:157-174 | every accepted log re-encodes to the same text |
| CanonicalPlain.PlainRoundTrip | src/poker_deliberation/approval_models.py:36-41 | NFC values without control characters, as approval texts are, always read back as themselves with sorted keys |
| CanonicalPlain.PlainLogRoundTrip | src/poker_deliberation/approval_canonical.py:157-174 | logs of such values always read back record by record |
| JUnitEvidence.AggregateCount | scripts/run_ci_test_shard.py:144-168 | the counter loop succeeds exactly when the attributes are readable, agree and suffice, with the stated value |
| JUnitEvidence.SuiteResultsReconcile | scripts/run_ci_test_shard.py:171-204 | the counter loop decides exactly whether a suite declares what its direct testcases show, and errs exactly when some declared count is unreadable and every one before it is readable |
| JUnitEvidence.ReadEvidence | scripts/run_ci_test_shard.py:207-261 | evidence exists exactly for consistent documents and is the stated evidence |
| JUnitCounting.EvidenceFlags | scripts/run_ci_test_shard.py:240-251 | the two flags over every element: all testcases, and some, have a skipped child; some failure or error occurs |
| JUnitCounting.CountsLeaveNoRoom | scripts/run_ci_test_shard.py:240-251 | the testcases of the tree number at least the direct ones of its suites, with equality exactly when none stands elsewhere |
| JUnitCounting.AllSkippedExactlyWhen | scripts/run_ci_test_shard.py:45-56 | `all_skipped` holds if and only if every testcase anywhere is a direct child of a result suite with exactly one untyped "collection skipped" result and nothing failed |
| ShardRunner.ShardsArePartition | scripts/run_ci_test_shard.py:85-125 | the round-robin shards contain every file exactly as often as the list does |
| ShardRunner.OneShardOnly | scripts/run_ci_test_shard.py:85-94 | no file is assigned to two shards |
| ShardRunner.ShardsAreBalanced | scripts/run_ci_test_shard.py:85-94 | shard sizes differ by at most one |
| ShardRunner.BuildPartitions | scripts/run_ci_test_shard.py:114-125 | building succeeds exactly for a positive count not above the number of files and distinct files, and the audit then passes |
| ShardRunner.AuditDecides | scripts/run_ci_test_shard.py:97-111 | the audit passes if and only if every file was discovered once and assigned once, and nothing else was |
| ShardRunner.RunTestShard | scripts/run_ci_test_shard.py:294-391 | every selected file is attempted once, the failures are exactly the files not accepted, and the exit code is 0 exactly when there is none |
| ShardRunner.GreenShardMeans | scripts/run_ci_test_shard.py:371-377 | a shard is green if and only if each file exited 0 with evidence, or exited 5 with a skipped document |
| ShardRunner.AllShardsGreen | scripts/run_ci_test_shard.py:294-391 | all shards are green if and only if every discovered file was accepted |

## Left out

- Approval records: identifier patterns, text normalization and time-zone checks of the record models are not modelled; records arrive typed, with times as integers.
- Approval records: action-plan and display fields the validators never inspect are folded into one string of the record.
- Hashing: digests are a parameter; SHA-256 and the byte layout of preimages are not part of the ledger model, and the codec is modelled separately over text.
- ApprovalRuns.EveryRunIsAccepted: runs let only timely decisions through, because the code admits others and the reader then refuses them (`ApprovalClock`).
- ApprovalRuns.CommittedDecisionReplays: the conflict half assumes collision-free hashing.
- `reverify_approval_authority`, the security-audit records, transaction identifiers, the V1 ledger and `project_v1_approvals` are not modelled; a V1 history appears as the snapshots a reissue names.
- BettingMachine.ValidateActionOrder: requires players declared with distinct names, which the line loop guarantees (`LineGrammar.AcceptedPlayersAreDistinct`).
- LineGrammar.ParseLines: the regular expressions, amounts, blind and card checks and the focal match are not modelled; lines arrive classified.
- ContractShape.Checker.Check: the model classes' own validators are one flag per instance, and sets are visited in list order. Which classes have instances that hold nothing is part of the input.
- Exact call EV: the equity oracle is an input, and the binary64 tool chain is not modelled.
- RiverBoundary.ValidateRiverBoundary: the test for all-in and ante actions is not modelled, because the parser produces none; the digest of an action prefix is a parameter.
- RoleDirectory.Directory.Confirm: request digests and policy fields are one signature, a read or a publication is one atomic step, and the status read that ends the operation is not modelled.
- RoleDirectory.Directory.Execute: the bridge's admission and audit are one atomic step; source, checkout and linkage verification are not modelled.
- RoleBridge.Replay: token and cost budgets, transport evidence and parent-result lineage are not modelled.
- Canonical JSON: floats, the interpreter's integer-length and recursion limits, and UTF-8 itself are not modelled; text is a sequence of Unicode scalar values and the NFC test is a parameter.
- CanonicalPlain.PlainRoundTrip: normalization is a parameter; what is used of it is that it can be decided on the two sides of a structural character or digit and that the three literal words are normalized (`SplitsAtInert`).
- Byte spans: only the line boundaries a validated source can contain (line feed, U+2028, U+2029) are modelled; decoding and the refusal of other control characters are not.
- Canonical codec: strict schema validation after canonical parsing is not modelled.
- ShardRunner.RunTestShard: launching pytest is a function from the file to its exit code and JUnit tree; paths, environment and printing are not modelled. XML parsing and attribute text to integer conversion are given as input.
- The parser's unit inference and pot ledger, the evaluation and provenance modules, storage, isolation and the command line are not part of this model.
