# A verified model of the mail gateway's hard parts

The repository is an e-mail gateway for agents. Its difficulty lies in at-least-once protocols that
meet in a database row, and in a few parsers and evaluators with real algebra. This project models
both and proves what every run keeps.

**Outbound settlement and delivery feedback** (`DeliveryStatus`, `SesNotification`, `Settlement`,
`MessageStore`, `SettlementRuns`, `SettlementNotices`, `SettlementLimits`, `SentMessages`,
`FeedbackRedelivery`, `FeedbackPushes`, `FeedbackConvergence`, `FeedbackOrders`, `FeedbackAllOrders`,
`FeedbackAllRows`). `Settlement` states each database transaction as a function on a `Ledger`: the
message row with its recipient rows, usage records, outbox rows and the account's suppressions.
`MessageStore` holds the row as an object with the store's, the worker's and the consumer's methods,
each proved equal to the function of the same transaction; the table below names the ones with
branches or loops of their own. `SettlementRuns` lets claims, hand-backs, settlements, notifications,
trash and lifted suppressions interleave in any order; a transaction that fails or a process that dies
is the step that changes nothing. `SettlementNotices` says which steps announce a message as sent or
failed and what each worker step leaves, `SettlementLimits` which steps lower the status rank or leave
a recipient sent with no evidence, and `SentMessages` follows a provider id from the worker's success
to the bounce that names the message by nothing else. `FeedbackRedelivery` shows why a second delivery
of a notification writes nothing new, and `FeedbackPushes` when a push event fails to rise.
`FeedbackConvergence` explains the row after any list of processed notifications, `FeedbackOrders`
which arrivals are processed at all, and `FeedbackAllOrders` and `FeedbackAllRows` exactly when all
orders of the same arrivals leave the same message, the same recipients, and the same row altogether.

**Recipient lists and review holds** (`StringOrder`, `RecipientLists`, `ReviewHold`, `ReviewRuns`,
`ReviewRules`, `ReviewStore`, `ReviewActions`). Dashboard, magic links and the expiry sweep each
decide from what they saw, later run one compare-and-set transaction, and later still publish;
`ReviewRuns` interleaves these freely with changing suppression lists, the clock, the trash and
crashes. `ReviewRules` gives the tables: which call wins, which check of an approval decides, and that
every call that resolved a hold was asked for. `ReviewStore` is the row and the sweep as objects,
`ReviewActions` the reviewer's requests.

**Queue-first accept** (`IdempotencyKey`, `QueueAccept`, `QueueAcceptLimits`). One key's claims, the
accept transaction, and every way in which a request can end; and exactly when a second message is
possible under one key.

**DMARC and DKIM** (`DmarcTree`, `DmarcRecord`, `DmarcText`, `DmarcEvaluation`, `DmarcExceptions`,
`DmarcCache`, `DkimTags`, `DkimResults`). The tree walk of section 4.10 of RFC 9989, the records it
reads, the alignment it decides, and its shared cache; the tag lists of section 3.2 of RFC 6376 read
off a folded header.

**Parsers and printers** (`EmailTemplate`, `EmailRender`, `Base64Url`, `Decimals`, `ApprovalToken`)
and **small machines** (`Pagination`, `EventDeduper`, `HitlNotify`).

Strings are sequences of bytes, written as characters below 256 where that matters. Foreign
libraries are parameters: address parsing, attachment decoding, MIME composition, the MAC, DNS
lookups, report-URI checking and the public suffix list, each with the assumptions stated as a
predicate (`CleanParser`, `ByteMac`, `SuffixList`). The list is assumed to give a domain a suffix of
itself and to give the same suffix to every ancestor longer than that suffix; exception rules of the
real list break the stronger claim for an ancestor equal to the suffix, so it is not assumed.

## What the code does where comments or expectations say otherwise

- An outcome for any envelope recipient is *applied*, also one that repeats or ranks below the stored
  status (`internal/identity/delivery_store.go:220-349`), although the interface comment calls such an
  outcome a no-op (`internal/delivery/consumer.go:63-66`). So a hard bounce after a soft one does
  suppress (`CondemnedAreSuppressed`), and the push events of one recipient need not rise:
  `FailsToRiseIff` says exactly when over every run, and `LateDeliveryStillAnnounced` is a run from
  acceptance whose outbox holds a bounce and then a delivery.
- A notification that cannot be correlated is acknowledged and lost
  (`internal/delivery/consumer.go:173-197`), and one that carries the marker can first store the
  provider id that correlates a later one without it. So the order of arrival can decide even the
  message status and the suppressions: `LostBounce` is such a pair of orders. `MessageConvergesIff`
  is the exact condition under which it cannot, `SteadyIff` the one under which the same arrivals are
  processed.
- Usage and the email.sent row depend on the order exactly when the message is open and an acceptance
  and a reject are both sure to be heard (`SendingConvergesIff`), since the first verdict settles it.
  A recipient's row does exactly when that verdict alone decides whether there is a row, or when a
  notification that only a repaired id can correlate raises it (`RowConvergesIff`); `ContestedSend` is
  a real pair of orders. The stored provider id is that of the first repair (`ProviderIdIff`), and
  `FeedConvergesIff` puts the conditions together for the whole row.
- A recipient status *sent* is the worker's own and does not imply provider evidence:
  `SentWithoutEvidence` is a run, and `UnprovenIff` and `UnprovenInRuns` say exactly when. The
  statuses only feedback can bring do imply it (`EvidenceMeansSettled`).
- The status rank falls not only on a correction but also when the owner hands a claim back
  (`HandBackFalls`, `CorrectionFalls`); these are all the steps that lower it (`RankFallsIff`).
- Merging onto an unknown status ignores accepted and queued (`internal/delivery/status.go:75-81`).
- The organizational domain is not always idempotent: `OrgIdempotentIff` gives the two exceptions, and
  both happen (`ExceptionSuffixHappens`, `SkippedChildHappens`); such a name does not align with its
  own organizational domain.
- A sweep approval of an outside send ends in `review_expired_approved`
  (`internal/hitlworker/worker.go:316`). Magic links publish no review event. A self-send with a
  managed unsubscribe link is delivered by the sweep but refused to a human, because only the human
  path counts recipients before it looks for a self-send (`ManagedSelfSendParts` gives every such case).
- Release and completion of an idempotency key do not ask who holds it
  (`internal/idempotency/store.go:270-299`), so a holder slower than the stale window can send a
  second message (`LateHolderSendsTwice`). The window is exactly the time that keeps sends single
  (`AtMostOneSendIff`), and the key row tells when the next commit is a second one (`SecondSendIff`).
- A held draft's reply is stored after its transaction, so a crash in between can hold a second draft
  (`HeldDraftTwice`); `SecondDraftIff` says exactly when one is still possible.
- Without an expiry time an outage keeps the notification job alive forever (`NoExpiryNoBound`), and
  otherwise it ends (`FinishesIff`). Its stamp does not cover a crash between send and stamp
  (`EmailsAreBounded`), so emails do repeat (`EmailsRepeat`).

## Model

| member | source | states |
|---|---|---|
| DeliveryStatus.MergeIsJoin | internal/delivery/status.go:77-85 | from every current status, unknown ones included, the order, grouping and repetition of merged statuses are lost, and the higher rank wins |
| DeliveryStatus.MergeFromUnknown | internal/delivery/status.go:75-85 | what merging onto an unknown status keeps: anything of positive rank, so not accepted or queued |
| DeliveryStatus.FailureGivesWay | internal/delivery/status.go:146-157 | a recorded failure gives way to a roll-up exactly when it is worse, or proves acceptance and the failure was not the provider's |
| DeliveryStatus.RollupIsOrderFree | internal/delivery/status.go:77-85 | folding any listing of the recipient statuses gives their worst, whatever the order |
| DeliveryStatus.WorstIsUpperBound | internal/delivery/status.go:45-55 | no recipient status outranks the roll-up |
| SesNotification.ParseSESNotification | internal/delivery/ses.go:130-218 | a notification parses exactly when it names its message; then each event type has its own recipients, status, details and suppression, a bounce suppressing exactly when its text says permanent, and the older type field counts only without the newer one |
| SesNotification.BouncesAsSpelled | internal/delivery/ses.go:159-180 | the three bounce texts as the provider spells them |
| SesNotification.MarkersAre | internal/delivery/ses.go:222-247 | a marker is msg_ and one to sixty letters, digits, underscores and hyphens |
| SesNotification.FindMarker | internal/delivery/ses.go:143-150 | the first matching header wins, whatever its letter case, without blanks and angle brackets around it |
| SesNotification.ConsistentOutcomes | internal/delivery/ses.go:39-45 | a parsed outcome proves acceptance exactly when its kind implies it, is failed exactly for rejects, and suppresses only bounces and complaints |
| MessageStore.Row.RecomputeRollup | internal/identity/delivery_store.go:292-308 | the loop over recipient rows computes the roll-up |
| MessageStore.Row.RecordDeliveryOutcomeTx | internal/identity/delivery_store.go:220-349 | applies to exactly the envelope recipients, and records row and roll-up |
| MessageStore.Row.AddSentRecipientRowsTx | internal/identity/delivery_store.go:895-920 | gives every envelope recipient without a row the status sent |
| MessageStore.Row.MarkOutboundFailedTx | internal/identity/delivery_store.go:947-972 | only an evidence-free row before its terminal state is failed |
| MessageStore.Row.ClaimForSend | internal/identity/delivery_store.go:542-705 | the claim with its guards; a trashed agent's message is failed instead |
| MessageStore.Row.MarkSentWorker | internal/agent/outbound_async.go:155-170 | the worker's success transaction, rolled back whole when metering fails |
| MessageStore.Row.MarkFailedWorker | internal/agent/outbound_async.go:231-282 | the worker's failure transaction: settles as sent when evidence is there, fails otherwise, and reports which |
| MessageStore.Row.FinalizeProviderAcceptedTx | internal/agent/outbound_async.go:175-185 | settles a pending row once, and leaves any other row alone |
| MessageStore.Consumer.ApplyOutcome | internal/delivery/consumer.go:243-300 | one outcome: recipient row, suppression and its announcement, push event |
| MessageStore.Consumer.ApplyOutcomes | internal/delivery/consumer.go:237-300 | the recipient loop, and whether it recorded anything |
| MessageStore.Consumer.ProcessTx | internal/delivery/consumer.go:199-310 | the whole transaction of one notification, committed or rolled back whole |
| MessageStore.Consumer.Receive | internal/delivery/consumer.go:165-198 | correlation and the guards in front of the transaction |
| SettlementRuns.MergedRowsFacts | internal/identity/delivery_store.go:256-290 | merging an outcome raises one row, lowers none and touches no other |
| SettlementRuns.RecordOutcomeKeeps | internal/identity/delivery_store.go:220-349 | recording any consistent outcome keeps the row invariant and never lowers the status rank |
| SettlementRuns.ProcessKeeps | internal/delivery/consumer.go:199-310 | processing a parsed notification keeps the invariant; a rank falls only by correcting an unconfirmed failure |
| SettlementRuns.WorkerStepKeeps | internal/agent/outbound_async.go:155-325 | every worker and reconciler step keeps the invariant |
| SettlementRuns.ReachableKeeps | internal/agent/outbound_async.go:155-325 | the invariant holds in every state any interleaving reaches |
| SettlementRuns.MeteredOnce | internal/agent/outbound_async.go:155-199 | in every interleaving a message is metered exactly as often as an email.sent row exists for it, and at most once |
| SettlementRuns.EvidenceMeansSettled | internal/delivery/consumer.go:218-234 | in every reachable state evidence means a settled row, and a recipient status only feedback can bring means evidence |
| SettlementLimits.RankFallsIff | internal/delivery/status.go:146-157 | the status rank falls exactly when the owner of a claim hands it back, or a notification proves, without a bounce or complaint, the acceptance of a failure the provider never confirmed |
| SettlementLimits.RankFallsInRuns | internal/agent/outbound_async.go:155-325 | the same for the next step of every run |
| SettlementLimits.HandBackFalls | internal/identity/delivery_store.go:709-717 | a run in which a hand-back lowers it |
| SettlementLimits.CorrectionFalls | internal/delivery/status.go:146-157 | a run in which a correction lowers it |
| SettlementLimits.UnprovenIff | internal/identity/delivery_store.go:778-802 | a step leaves a recipient sent without evidence exactly when the worker marks it, or it was so and the provider neither confirms the message nor rejects the recipient |
| SettlementLimits.UnprovenInRuns | internal/delivery/consumer.go:218-234 | in every run a recipient is so exactly when the worker marked it and the provider said nothing since |
| SettlementLimits.SentWithoutEvidence | internal/identity/delivery_store.go:778-802 | a run in which it is |
| SettlementRuns.ProviderFailureIsFinal | internal/delivery/status.go:146-157 | after a provider-confirmed failure the status is failed, bounced or complained for the rest of any run |
| SettlementNotices.AnnouncedIff | internal/agent/outbound_async.go:155-282 | in every run a message is announced as failed exactly when a worker failure took effect or a reject was processed, and as sent exactly when a success took effect or acceptance was heard while it was open |
| SettlementNotices.WorkerSuccess | internal/identity/delivery_store.go:778-802 | the success on a claimed row: provider id, sent rows for the recipients without one, usage, and no trace of a failure |
| SettlementNotices.WorkerFailure | internal/identity/delivery_store.go:947-972 | the failure write with its source and reason, what it does instead when evidence is there, and where it does nothing |
| SettlementNotices.ClaimMeans | internal/identity/delivery_store.go:542-705 | exactly what a claim does to a row, a trashed agent's and a kept failure included |
| SettlementNotices.HandBackMeans | internal/identity/delivery_store.go:706-776 | exactly what a hand-back and a kept failure do |
| SettlementNotices.KeptFailureWaits | internal/identity/delivery_store.go:542-705 | no later claim takes a row whose failure is kept whole |
| SettlementNotices.TrashCancels | internal/identity/delivery_store.go:542-705 | a trashed agent's message fails as cancelled when claimed, and is sent as ever when the agent came back |
| SettlementNotices.AppliesMeans | internal/delivery/consumer.go:199-260 | exactly when an outcome applies and a notification is of no concern |
| SettlementNotices.ReleasedAgain | internal/delivery/consumer.go:246-272 | a released address is off the list until the notification is heard again |
| SentMessages.HearsIff | internal/delivery/consumer.go:165-197 | exactly which notifications reach a message: stamped, and marked with its id or naming its provider id bare, in angle brackets, or in angle brackets with a host |
| SentMessages.SentIdStays | internal/identity/delivery_store.go:778-802 | the provider id the worker stored stays for the rest of any run |
| SentMessages.SentMessageIsHeard | internal/delivery/consumer.go:173-197 | so every later well-stamped notification that names it in one of the three shapes is processed |
| SentMessages.HardBounceSuppresses | internal/delivery/consumer.go:237-300 | from the raw text to the row: a permanent bounce told by nothing but the SES id suppresses the recipient and leaves a sent message bounced or complained about, at any later moment |
| FeedbackRedelivery.CondemnedAreSuppressed | internal/delivery/consumer.go:246-272 | every hard bounce and complaint about an envelope recipient leaves the address suppressed, whatever came before |
| FeedbackRedelivery.OutcomesOutbox | internal/delivery/consumer.go:246-300 | exactly which outbox rows the outcomes of a notification add |
| FeedbackPushes.PushHistory | internal/delivery/consumer.go:237-294 | over every run the outbox holds a push for a recipient of at least some rank exactly when an earlier processed notification reported a pushed status of at least that rank |
| FeedbackPushes.FailsToRiseIff | internal/delivery/consumer.go:273-300 | the next notification of a run writes a push that does not rise exactly when it is processed and reports a status not pushed before that an earlier processed one already matched or exceeded |
| FeedbackPushes.LateDeliveryStillAnnounced | internal/delivery/consumer.go:131-144 | a run from acceptance whose outbox holds a bounce and then a delivery for the same recipient |
| FeedbackRedelivery.ProcessGrows | internal/delivery/consumer.go:199-310 | a notification takes back no outbox row, evidence or recipient status |
| FeedbackRedelivery.ProcessLeavesMarks | internal/delivery/consumer.go:199-310 | a processed notification leaves its full effect on the row |
| FeedbackRedelivery.MarksStayForever | internal/delivery/consumer.go:199-310 | no later step of any run undoes that effect |
| FeedbackRedelivery.ProcessAgain | internal/delivery/consumer.go:199-310 | processing a notification whose effect is there changes nothing but lifted suppressions |
| FeedbackRedelivery.RedeliveryChangesNothing | internal/delivery/consumer.go:199-310 | a second delivery at any later moment of any run writes nothing new except to suppress again an address somebody released |
| FeedbackConvergence.VerdictMeaning | internal/delivery/consumer.go:218-234 | the first acceptance or reject in a feed decides whether feedback settles an open message |
| FeedbackConvergence.PlayedExplained | internal/delivery/consumer.go:199-310 | the state after any list of processed notifications, from the set of them and the first verdict alone |
| FeedbackConvergence.StatusIs | internal/delivery/consumer.go:199-310 | the exact status once one of them decided: the worst of the stored, the floor and the reported ones |
| FeedbackConvergence.RowIs | internal/delivery/consumer.go:199-310 | the exact row of every recipient: the highest of the stored and reported ones, and sent where settling filled it in |
| FeedbackConvergence.PlayedConverges | internal/delivery/consumer.go:199-310 | two orders of the same processed notifications leave the same message, failure columns, evidence, suppressions and outbox but for email.sent |
| FeedbackConvergence.PlayedRowsConverge | internal/delivery/consumer.go:199-310 | and the same recipient row, email.sent row and usage except exactly when one order settles the message, the other refuses it and nobody reported on the recipient |
| FeedbackOrders.FeedExplained | internal/delivery/consumer.go:165-310 | the state after any arrivals whatever, from those that correlated and were processed |
| FeedbackOrders.HeardMembers | internal/delivery/consumer.go:173-197 | which arrivals are processed: the marked and matching ones always, and besides them only those an earlier repair of the provider id lets in |
| FeedbackOrders.SteadyMessageConverges | internal/delivery/consumer.go:165-310 | with a known provider id, or no arrival that only a repair could correlate, all orders leave the same message |
| FeedbackOrders.FeedsAgreeIff | internal/delivery/consumer.go:165-310 | with the same arrivals processed the whole rows agree exactly when both or neither settle the message and the first repair of the id is the same |
| FeedbackOrders.SingleVerdictConverges | internal/delivery/consumer.go:218-234 | on a message that is not open, or with one verdict heard, nothing but the repaired provider id depends on the order |
| FeedbackAllOrders.MessageConvergesIff | internal/delivery/consumer.go:165-310 | all orders with any repetitions leave the same message exactly when the provider id is known, or no arrival that only a repair could correlate says what the sure ones do not |
| FeedbackAllOrders.SteadyIff | internal/delivery/consumer.go:173-197 | all orders process the same notifications exactly under the simple guard |
| FeedbackAllOrders.ProviderIdIff | internal/identity/delivery_store.go:117-126 | all orders end with the same provider id exactly when it is known or every repair names the same one |
| FeedbackAllOrders.LostBounce | internal/delivery/consumer.go:173-197 | a send confirmation and an unmarked bounce: bounced and suppressed in one order, sent in the other |
| FeedbackAllRows.VerdictIsSure | internal/delivery/consumer.go:165-234 | which verdict comes first is settled by the notifications sure to be processed: one that a repaired id lets in never comes first |
| FeedbackAllRows.SendingConvergesIff | internal/delivery/consumer.go:218-234 | all orders write usage and email.sent alike exactly when the message is not open, or only one verdict about it is sure to be heard |
| FeedbackAllRows.RowConvergesIff | internal/delivery/consumer.go:199-310 | all orders leave a recipient the same row exactly when no notification that only a repair lets in raises it above the sure reports, and settling is not the contested only source of it |
| FeedbackAllRows.FeedConvergesIff | internal/delivery/consumer.go:165-310 | all orders leave the very same row with everything in it exactly when the guards for message, sending, provider id and every recipient hold |
| FeedbackAllRows.ContestedSend | internal/delivery/consumer.go:218-234 | a send confirmation and a reject for one of two recipients: the other one is sent to, announced and metered in one order and not in the other |
| RecipientLists.NormalizeBlockedRecipients | internal/agent/outbound_async.go:288-301 | lists exactly the non-empty normalized addresses in increasing order |
| RecipientLists.BlockedListingIsCanonical | internal/agent/outbound_async.go:288-301 | two lists normalize alike exactly when they name the same addresses |
| RecipientLists.NormalizeRecipients | internal/outbound/sender.go:464-488 | the three cleaned fields, or the error |
| RecipientLists.EnvelopeIsExact | internal/outbound/sender.go:464-488 | the envelope lists each mentioned address but the agent's own exactly once, in its first field |
| RecipientLists.EnvelopeRefused | internal/outbound/sender.go:464-488 | the send is refused exactly when an entry does not parse or To and CC name nobody but the agent |
| RecipientLists.EnvelopeIsLookedUp | internal/identity/agent_suppressions.go:164-192 | every address a composed message goes to was among the keys of the suppression lookup |
| ReviewHold.RebuildsAgree | internal/agent/hitl_api.go:313-344 | the sweep and a human rebuild the same request exactly when the draft is a reply, names no message, or cannot be rebuilt |
| ReviewHold.ManagedSelfSendParts | internal/hitlworker/worker.go:282-296 | exactly when the sweep delivers a draft locally where a human is refused: a cleared self-send whose managed link counts nobody or has no issuer, or without a queue |
| ReviewHold.SweepQueuesCleared | internal/hitlworker/worker.go:232-333 | the sweep queues only after a successful lookup without hits on the final recipients |
| ReviewHold.DashboardQueuesCleared | internal/agent/hitl_api.go:73-182 | a dashboard approval queues only edited recipients that were looked up without hits, and never gives the hold up |
| ReviewHold.MagicQueuesCleared | internal/agent/hitl_magic_api.go:221-313 | the same for a magic link |
| ReviewHold.QueuesForAll | internal/hitlworker/worker.go:304-316 | the sweep and a magic link queue a send for exactly the addresses To, CC and BCC name, each once, but the agent's own |
| ReviewHold.EditedQueuesForAll | internal/agent/hitl_api.go:218-227 | the dashboard does so for the reviewer's fields where given and the draft's otherwise |
| ReviewRules.WinsMeans | internal/identity/store.go:3050-3389 | which store call wins on which row: direction, state, trash, owner, deadline and target of each |
| ReviewRules.LosesMeans | internal/identity/store.go:3050-3389 | what a call that does not win answers; a stranger is told that the hold is not there |
| ReviewRules.ResolvedRow | internal/identity/store.go:3281-3389 | what a winning call leaves in the row, and that nothing else moves |
| ReviewRules.WinnersAreEntitled | internal/identity/store.go:3050-3389 | in every run whoever rejected or locally delivered by hand owns the hold, and an inbound review named its agent or none |
| ReviewRules.NewTasksAreAsked | internal/hitlworker/worker.go:191-333 | which store call each verdict, reject, policy and failed local delivery leads to |
| ReviewRules.WinnersWereAsked | internal/hitlworker/worker.go:191-333 | in every run the call that resolved the hold was asked for by the verdict of its actor at some moment, or by the policy |
| ReviewRules.ReviewsNameTheAgent | internal/identity/review.go:244-288 | in every run a review by hand that won named the hold's own agent |
| ReviewRules.PublishedIsTrue | internal/agent/hitl_magic_api.go:267-278 | in every run what is published tells of the call that won and of the status it left |
| ReviewRules.WonCanPublish | internal/agent/hitl_api.go:160-180 | a won call can publish its event |
| ReviewRules.StepMeans | internal/hitlworker/worker.go:191-333 | a call stays due until it is run or lost, and only a due call that does not fail touches the row beside the trash |
| ReviewRules.WorldMoves | internal/identity/store.go:3050-3077 | clock, lists and the listing of expired holds |
| ReviewRules.TrashGivesBack | internal/identity/store.go:1725-1756 | a stay in the trash gives a pending hold back exactly its time |
| ReviewRules.UndisturbedApproval | internal/agent/hitl_api.go:73-182 | a dashboard approval nothing disturbs queues the send it decided on |
| ReviewRules.UndisturbedSweep | internal/hitlworker/worker.go:172-333 | and so does one by the sweep, from a hold that is only past its deadline |
| ReviewRules.RequestCarries | internal/agent/hitl_api.go:313-344 | both rebuilds carry the draft over field by field and fail only on unreadable attachments |
| ReviewRules.EditsReplace | internal/agent/hitl_api.go:73-119 | edits replace what they give and leave the rest |
| ReviewRules.HitsMean | internal/hitlworker/worker.go:252-275 | the lookup finds a hit exactly when a stored form of some entry is suppressed |
| ReviewRules.OneRecipientMeans | internal/agent/hitl_api.go:131-160 | a managed link needs exactly one address besides the agent's own |
| ReviewRules.ComposeFails | internal/agent/hitl_api.go:160-182 | when composing fails, and with which status |
| ReviewRules.DashboardDecides | internal/agent/hitl_api.go:73-119 | the checks of a dashboard approval in order, each with its status |
| ReviewRules.MagicDecides | internal/agent/hitl_magic_api.go:221-266 | the checks of a magic link in order |
| ReviewRules.SharedDecides | internal/agent/hitl_api.go:120-182 | the checks both share from the request on |
| ReviewRules.SweepDecidesBy | internal/hitlworker/worker.go:191-251 | the checks of the sweep in order: what may pass is left, what will not is given up |
| ReviewRules.SweepTailDecides | internal/hitlworker/worker.go:252-333 | and from the request on, the self-send before anything about recipients |
| ReviewStore.HoldRow.ApproveAndAccept | internal/identity/store.go:3295-3389 | compare-and-set, job and stamp commit together or not at all |
| ReviewStore.HoldRow.TransitionReview | internal/identity/review.go:244-288 | the inbound compare-and-set for reviewer and sweep |
| ReviewStore.Sweeper.ApproveRequest | internal/hitlworker/worker.go:252-333 | suppression, self-send, unsubscribe and compose branches end in the verdict's row |
| ReviewStore.Sweeper.AutoApproveAsync | internal/hitlworker/worker.go:232-333 | handled unless the message is a self-send, and then untouched |
| ReviewStore.Sweeper.ProcessOne | internal/hitlworker/worker.go:183-224 | one candidate under the agent's policy |
| ReviewStore.Sweeper.Sweep | internal/hitlworker/worker.go:172-181 | every listed row ends as if it were swept alone |
| ReviewStore.SweepDecides | internal/hitlworker/worker.go:191-333 | an expired hold nobody else touches is resolved by one pass unless something failed that may pass |
| ReviewStore.FailsWhole | internal/identity/store.go:3295-3389 | a store call whose transaction fails leaves the row and says so only where it would have won |
| ReviewStore.SweptMeans | internal/hitlworker/worker.go:191-333 | what one pass makes of an expired hold, verdict by verdict |
| ReviewStore.SeenMeans | internal/hitlworker/worker.go:191-251 | what the sweep sees |
| ReviewStore.SweepApprovesOnlyClear | internal/hitlworker/worker.go:191-333 | the sweep approves only by policy, for a verified agent, outside the trash, with cleared recipients, and then queues or delivers once |
| ReviewStore.SweepReviews | internal/hitlworker/worker.go:127-170 | every expired inbound hold is released or dropped by policy, each on its own |
| ReviewActions.ReviewApi.ApprovePendingCore | internal/agent/hitl_api.go:73-182 | checks, edits, suppression and delivery end in the row and HTTP status of the verdict |
| ReviewActions.ReviewApi.MagicApprove | internal/agent/hitl_magic_api.go:221-313 | the same for a magic link, which leaves the status check to the compare-and-set |
| ReviewActions.ReviewApi.ApproveRequest | internal/agent/hitl_api.go:120-180 | suppression, unsubscribe, queue, self-send and compose branches in the human order |
| ReviewActions.SuccessMeansSent | internal/agent/hitl_api.go:73-182 | a reviewer is told of success exactly when this request resolved the hold, and every other answer left it as it was |
| ReviewActions.StrangersAreRefused | internal/agent/hitl_api.go:73-119 | a stranger, or anybody on an inbound hold, is refused as if the hold did not exist |
| ReviewActions.AnswersMean | internal/agent/hitl_api.go:160-182 | which answer each outcome of the store call gets |
| ReviewActions.SeesItsOwn | internal/agent/hitl_api.go:73-90 | an approver sees the status of an outbound hold of their own only |
| ReviewActions.ApprovedIsCleared | internal/agent/hitl_api.go:120-130 | whatever a reviewer queues goes to cleared recipients, edited ones included |
| ReviewRuns.ResolvedOnce | internal/hitlworker/worker.go:191-333 | in every interleaving of dashboard, magic links and sweep at most one call wins, and status, jobs, stamp and copies are the winner's |
| ReviewRuns.OneJobPerExternalApproval | internal/identity/store.go:3295-3389 | a send job exists exactly when an approval for outside delivery won, and then one |
| ReviewRuns.ResolvedForGood | internal/identity/store.go:3281-3294 | a resolved hold keeps its status, its jobs with their ids and recipients, and its copies |
| ReviewRuns.AtMostOneEvent | internal/agent/hitl_magic_api.go:267-278 | at most one resolution event is published, the winner's, and none after a magic link |
| ReviewRuns.TasksAreCleared | internal/hitlworker/worker.go:252-275 | every pending or won approval was decided at a moment when none of its recipients was suppressed |
| ReviewRuns.JobsWereCleared | internal/hitlworker/worker.go:252-275 | so every address of a send job was looked up with success while not suppressed |
| ReviewRuns.JobsReachEverybody | internal/agent/hitl_api.go:218-227 | in every run the recipients of a send job are, each once, exactly the addresses the draft named as the approving step had it |
| ReviewRuns.SweepNeedsExpiry | internal/identity/store.go:3050-3077 | the sweep wins only after the hold was pending, out of the trash and past its deadline |
| ReviewRuns.SweepWinsPastDeadline | internal/identity/store.go:1725-1756 | and still past it when it wins: a stay in the trash gives back exactly its time |
| IdempotencyKey.KeyStore.Claim | internal/idempotency/store.go:155-239 | acquires a free or stale key, and classifies every other one |
| IdempotencyKey.ClaimMeans | internal/idempotency/store.go:155-239 | exactly what a claim gets on a free, held, stale or completed key, with the five minutes of the stale window |
| IdempotencyKey.CompletionMeans | internal/idempotency/store.go:270-299 | only a claim in progress is completed or freed |
| IdempotencyKey.CapturingWriter.Finalize | internal/agent/idempotency_guard.go:91-113 | stores the response or frees the key, by the calls alone |
| IdempotencyKey.MeaningOfCalls | internal/agent/idempotency_guard.go:160-180 | the captured response is the first status (200 when silent), the whole body, and whether a commit was signalled |
| IdempotencyKey.KeptBelow400 | internal/agent/idempotency_guard.go:91-113 | a handler that begins with a status keeps the key exactly below 400 or with a commit signalled |
| QueueAccept.Database.AcceptTx | internal/agent/api.go:1343-1365 | message, job, stamp and cached reply commit together; a failure at any statement leaves nothing |
| QueueAccept.EveryAcceptedRowHasItsJob | internal/agent/api.go:1335-1365 | in every run each accepted row carries its own job's id and each job has its row |
| QueueAccept.RepliesAreTruthful | internal/agent/api.go:1343-1365 | in every run a completed key replays the id and kind of an existing row with the code of that kind |
| QueueAccept.RetriesReplay | internal/agent/api.go:1343-1365 | after a commit that held the key every later request is told the id, kind and code of the very row that commit appended, which stays, or is refused for another body |
| QueueAccept.HeldRetriesReplay | internal/agent/api.go:1262-1283 | the same for a held draft from the moment its reply is stored |
| QueueAccept.AtMostOneSend | internal/agent/api.go:1335-1365 | any retries and crashes under one key queue or deliver at most one message, if no holder acts after its claim went stale |
| QueueAcceptLimits.AtMostOneSendIff | internal/idempotency/store.go:44-49 | when holders act within so many seconds of their claim, all runs queue or deliver at most one message exactly when that is at most the stale window |
| QueueAcceptLimits.LateHolderSendsTwice | internal/idempotency/store.go:44-49 | a run in which a holder one second slower makes a second message |
| QueueAcceptLimits.SecondSendIff | internal/idempotency/store.go:261-283 | after a run with holders on time the next commit is a second send exactly when the key row holds the reply of a send, and its holder is past the window |
| QueueAcceptLimits.AtMostOneMessage | internal/agent/api.go:1262-1283 | held drafts are single too if no request is lost between its draft and its reply |
| QueueAcceptLimits.SecondDraftIff | internal/agent/api.go:1262-1283 | a second message stays possible exactly when one stands, the key does not know it and nobody is still in time to store its reply |
| QueueAcceptLimits.HeldDraftTwice | internal/agent/api.go:1262-1283 | a run with a crash in between, after which a retry holds a second draft |
| DmarcTree.DefaultRuleIsSuffixList | internal/emailauth/dmarc.go:341-348 | the assumptions about the public suffix list can be met |
| DmarcTree.BoundedWalk | internal/emailauth/dmarc.go:301-324 | a walk asks about at most eight names, all of them the name or its ancestors |
| DmarcTree.DmarcTreeTargets | internal/emailauth/dmarc.go:301-324 | the loop yields the name and then its tails down to the suffix, within the bound |
| DmarcTree.WalkDMARCTree | internal/emailauth/dmarc.go:268-299 | the loop yields the records found in order, stops at a decisive one, and fails with the first error |
| DmarcTree.OrgIsScan | internal/emailauth/dmarc.go:326-339 | the organizational domain is what a scan of the walked names up to the first decisive record says |
| DmarcTree.OrgIdempotentIff | internal/emailauth/dmarc.go:326-339 | the organizational domain is its own organizational domain, for names of any length, except exactly in two cases |
| DmarcTree.OrgIdempotent | internal/emailauth/dmarc.go:326-339 | in particular for names of at most eight labels whose listed suffix is a public suffix |
| DmarcTree.OrgIsAncestor | internal/emailauth/dmarc.go:326-356 | it is a tail of the name and no public suffix |
| DmarcExceptions.ExceptionSuffixHappens | internal/emailauth/dmarc.go:326-339 | a zone under a suffix rule with an exception in which a name does not align with its own organizational domain |
| DmarcExceptions.SkippedChildHappens | internal/emailauth/dmarc.go:301-339 | a nine-label name of which the same is true under the default rule |
| DmarcEvaluation.RelaxedIsEquivalence | internal/emailauth/dmarc.go:175-194 | relaxed alignment is an equivalence on askable names; strict alignment is equality |
| DmarcEvaluation.AlignsWithOwnOrg | internal/emailauth/dmarc.go:175-194 | a name aligns with its own organizational domain outside the two cases |
| DmarcEvaluation.DiscoveredPolicy | internal/emailauth/dmarc.go:206-238 | the policy found is published at the name or an ancestor: the name's own, else the organizational domain's if the walk met one, else a public suffix domain's, else the topmost |
| DmarcEvaluation.AlignedMechanisms | internal/emailauth/dmarc.go:107-147 | lists SPF and DKIM, each at most once, exactly when they count |
| DmarcEvaluation.CountsMeans | internal/emailauth/dmarc.go:175-194 | evidence counts exactly for a pass of a name that equals the author's or, in the relaxed mode of the record, shares its organizational domain, public suffixes aside |
| DmarcEvaluation.FailingMeans | internal/emailauth/dmarc.go:175-194 | a pass is an error exactly where its own walk is needed and fails |
| DmarcEvaluation.EffectiveIsPublished | internal/emailauth/dmarc.go:106-118 | the policy of a verdict is the name's own p, or the sp of the ancestor that speaks for it, or that one's p |
| DmarcEvaluation.FirstErrorIsFirst | internal/emailauth/dmarc.go:119-148 | the error reported is the first one met |
| DmarcEvaluation.Evaluate | internal/emailauth/dmarc.go:85-148 | on the zone: no verdict for suffixes and names without a policy, the published policy, pass exactly when a mechanism aligns, and each failure its own status |
| DmarcEvaluation.Authentication.FlagMechanisms | internal/emailauth/dmarc.go:153-173 | each mechanism is flagged aligned exactly when it counts |
| DmarcEvaluation.Authentication.EvaluateAuthentication | internal/emailauth/dmarc.go:153-173 | SPF is flagged exactly when spf is listed, some DKIM result exactly when dkim is |
| DmarcCache.RunConsistent | internal/emailauth/dmarc.go:240-266 | after any stores the order list holds exactly the cached names, once each, at most 1024 |
| DmarcCache.EntriesFromStores | internal/emailauth/dmarc.go:240-266 | every entry is the last walk stored for its name |
| DmarcCache.ServedIsRecent | internal/emailauth/dmarc.go:240-266 | a served walk was computed for that name less than five minutes before and no later store replaced it; failures are never served |
| DmarcCache.Evaluator.CachedWalk | internal/emailauth/dmarc.go:240-266 | serves the cache or stores the direct walk, keeping it consistent |
| DmarcRecord.ParseDmarcRecord | internal/emailauth/dmarc.go:380-447 | reads a list of proper tags, version first, none twice, and refuses every other text |
| DmarcRecord.SelectDmarcRecord | internal/emailauth/dmarc.go:361-372 | exactly one versioned string is read, otherwise there is no record |
| DmarcText.TagReads | internal/emailauth/dmarc.go:380-401 | how one entry reads: name in lower case, value trimmed, and which are malformed |
| DmarcText.NoEqualsNoTag | internal/emailauth/dmarc.go:380-401 | an entry without an equals sign is malformed |
| DmarcText.VersionReads | internal/emailauth/dmarc.go:374-378 | when a string is versioned |
| DmarcText.ListReads | internal/emailauth/dmarc.go:402-447 | each field of the record from its own tag, with the defaults |
| DmarcText.UnreadablePolicy | internal/emailauth/dmarc.go:402-428 | an unreadable policy leaves a monitoring record if reports are asked for and none otherwise |
| DmarcText.WrittenReadsBack | internal/emailauth/dmarc.go:380-447 | every record written out tag by tag reads back as itself |
| DmarcRecord.OrderOfTagsIsIrrelevant | internal/emailauth/dmarc.go:380-447 | after the version, rearranged tags read as the same record |
| DmarcRecord.OrderOfStringsIsIrrelevant | internal/emailauth/dmarc.go:361-372 | two lists that hold every versioned string equally often read alike, whatever their order and their other strings |
| DmarcRecord.WalkReadsVersionedStrings | internal/emailauth/dmarc.go:268-299 | so the whole walk depends on nothing in the zone but the versioned strings of the names it asks about |
| DkimTags.ParseTagValues | internal/emailauth/checker.go:395-408 | the map of the entries in order |
| DkimTags.EntryReads | internal/emailauth/checker.go:395-408 | how one entry of a tag list reads |
| DkimTags.LastEntryWins | internal/emailauth/checker.go:395-408 | a tag has the value of the last entry that names it, and is missing when none does |
| DkimTags.DkimSignatureTags | internal/emailauth/checker.go:334-383 | the line scanner yields the tag maps of the fields before the first empty line, or nothing when it failed before one |
| DkimTags.RestIsFields | internal/emailauth/checker.go:346-382 | at every line the scanner still adds exactly the open field and the later ones |
| DkimTags.ReadsFieldByField | internal/emailauth/checker.go:334-383 | a header block written field by field is read as one map per DKIM-Signature field, in order, whatever the body |
| DkimTags.OneMapPerSignature | internal/emailauth/checker.go:330-333 | there are as many maps as DKIM-Signature fields |
| DkimTags.FoldedReadsLikeUnfolded | internal/emailauth/checker.go:355-362 | a field folded between tags, or right after the colon, reads like the same field on one line |
| DkimResults.MapDkimResults | internal/emailauth/checker.go:229-309 | one result per signature, each from its own verification and tags, and permanent errors when the counts differ |
| DkimResults.PassMeans | internal/emailauth/checker.go:229-309 | a result passes exactly when the counts agree, its verification succeeded and it has no body-length tag |
| DkimResults.StatusMeans | internal/emailauth/checker.go:229-309 | every other status and exactly when |
| DkimResults.NamesMean | internal/emailauth/checker.go:229-309 | the domain is the verifier's or else the signature's own, in normal form, and the selector the signature's |
| DkimResults.OthersDoNotMatter | internal/emailauth/checker.go:218-228 | with equal counts a result does not depend on the other signatures |
| DkimResults.LimitedNeverPasses | internal/emailauth/checker.go:218-309 | over a whole header block a field with a body-length tag never passes |
| DkimResults.AnyLimitCounts | internal/emailauth/checker.go:311-322 | a body-length tag anywhere in the field is seen |
| DkimResults.AggregateLegacyDkim | internal/emailauth/checker.go:110-120 | passes exactly when some signature passes, and otherwise reports the first |
| EmailTemplate.Parse | internal/emailtemplate/emailtemplate.go:78-126 | the loop parses as the grammar says, with the variables in order |
| EmailTemplate.IdentsAre | internal/emailtemplate/emailtemplate.go:100-142 | which insides of a tag are read, which are refused as reserved or empty, and the bound on the source |
| EmailTemplate.OneTag | internal/emailtemplate/emailtemplate.go:78-126 | the trimmed inside of the braces names the tag, two braces escape and three do not, and braces that never close are told as such |
| EmailTemplate.ParsedIsCanonical | internal/emailtemplate/emailtemplate.go:78-126 | no literal holds an opener or ends in a brace before a tag, no two literals meet, and printing is no longer than the source |
| EmailTemplate.PrintedParsesBack | internal/emailtemplate/emailtemplate.go:78-126 | printing any such list and parsing it gives the list back: these lists are exactly the results of parsing |
| EmailTemplate.RoundTrip | internal/emailtemplate/emailtemplate.go:78-126 | a parsed template printed and parsed again has the same nodes and variables |
| EmailTemplate.VarsAreFirstAppearances | internal/emailtemplate/emailtemplate.go:143-150 | the variables are the tags in order of first appearance, each once |
| EmailRender.Render | internal/emailtemplate/emailtemplate.go:156-175 | the rendered text, or the depth or size error |
| EmailRender.RenderGrows | internal/emailtemplate/emailtemplate.go:160-173 | stopping at the first excess is the same as measuring the whole output |
| EmailRender.ResolveDotted | internal/emailtemplate/emailtemplate.go:179-192 | a dotted path resolves step by step |
| EmailRender.EscapeInjective | internal/emailtemplate/emailtemplate.go:166-170 | escaping loses nothing |
| EmailRender.Entities | internal/emailtemplate/emailtemplate.go:166-170 | the five characters with an escape, each with its own, part by part |
| EmailRender.RawIsPlain | internal/emailtemplate/emailtemplate.go:156-175 | with every tag raw, HTML and plain text are the same |
| EmailRender.TagsAreEscaped | internal/emailtemplate/emailtemplate.go:156-175 | any other run of tags is in HTML the escape of what it is in plain text |
| EmailRender.PlainText | internal/emailtemplate/emailtemplate.go:156-175 | plain text is the literals and the bare scalars |
| EmailRender.ScalarsRead | internal/emailtemplate/emailtemplate.go:194-221 | how data reads as text |
| EmailRender.DepthIs | internal/emailtemplate/emailtemplate.go:223-249 | only nesting counts as depth |
| EmailRender.FieldOfIs | internal/emailtemplate/emailtemplate.go:179-192 | a key is answered by its own field |
| EmailRender.EscapedHasNoMarkup | internal/emailtemplate/emailtemplate.go:166-170 | escaped text has no markup character |
| EmailRender.DataAddsNoMarkup | internal/emailtemplate/emailtemplate.go:156-175 | without raw tags the markup characters of the output are those of the template's own text, whatever the data |
| EmailRender.OnlyVarsMatter | internal/emailtemplate/emailtemplate.go:143-175 | data that agrees on the listed variables renders alike |
| Base64Url.DecodeEncode | internal/approvaltoken/token.go:72-73 | decoding undoes encoding for all bytes |
| Base64Url.EncodedIsSafe | internal/approvaltoken/token.go:72-73 | an encoded text has no separator and no line break |
| Base64Url.Vectors | internal/approvaltoken/token.go:72-73 | the vectors of RFC 4648, section 10, and the two characters of the URL alphabet |
| Base64Url.NewlinesDoNotMatter | internal/approvaltoken/token.go:72-100 | line breaks anywhere do not change what a text decodes to |
| Decimals.ParseFormat | internal/approvaltoken/token.go:70 | a printed integer is read back exactly when it fits in 64 bits |
| Decimals.SignsRead | internal/approvaltoken/token.go:117 | a sign may stand in front of the digits of a time, and a plus changes nothing |
| ApprovalToken.Verify | internal/approvaltoken/token.go:88-133 | the search through the secrets and every check, as specified |
| ApprovalToken.VerifyUndoesSign | internal/approvaltoken/token.go:60-133 | signing succeeds exactly for known actions and clean ids, and verifying gives the claims back, or invalid or expired, exactly as secrets and time say |
| ApprovalToken.SigningSecretVerifies | internal/approvaltoken/token.go:81-87 | the signing secret anywhere in the list verifies the token until it expires |
| ApprovalToken.VerifiedMeans | internal/approvaltoken/token.go:88-133 | a verified token carries a listed secret's MAC of its payload, a known action and a time not yet past |
| ApprovalToken.PeekAgrees | internal/approvaltoken/token.go:168-185 | peeking names the message verification names, but refuses an empty name |
| ApprovalToken.PeekUndoesSign | internal/approvaltoken/token.go:168-185 | peeking at a signed token gives the signed id |
| Pagination.HandleListSuppressions | internal/httpapi/account.go:152-196 | a page shows at most the limit and has a cursor exactly when a row was left |
| Pagination.NeverRepeats | internal/identity/delivery_store.go:1054-1082 | whatever changes between requests, a walk never repeats a row nor goes back |
| Pagination.NeverSkips | internal/identity/delivery_store.go:1054-1082 | a row present at every request is shown, and every shown row was there |
| Pagination.EachStayingRowOnce | internal/httpapi/account.go:152-196 | rows that stay through a walk are shown exactly once |
| Pagination.WalkListsTheTable | internal/agent/events_api.go:98-117 | over an unchanged table the pages list every row once in descending order, in as many pages as its size takes |
| Pagination.PagesIsCeiling | internal/httpapi/account.go:171-190 | that number is the quotient rounded up, at least one |
| EventDeduper.Deduper.Complete | examples/adk-cloud-webhook/delivery_state.py:74-81 | the loop leaves the completed window |
| EventDeduper.InvStays | examples/adk-cloud-webhook/delivery_state.py:55-85 | in progress and processed stay disjoint, and the window lists the processed ids once each within its bound |
| EventDeduper.AnswersAfter | examples/adk-cloud-webhook/delivery_state.py:65-85 | what the next claim of any id answers after each call |
| EventDeduper.StaysProcessed | examples/adk-cloud-webhook/delivery_state.py:74-81 | an id stays processed until a window's worth of first completions followed it |
| EventDeduper.PushedOut | examples/adk-cloud-webhook/delivery_state.py:74-81 | and no longer |
| EventDeduper.NewAgain | examples/adk-cloud-webhook/delivery_state.py:65-85 | between two new answers for one id lies its release, or its completion followed by at least a window of first completions |
| HitlNotify.NotifyRow.Work | internal/hitlnotify/worker.go:104-153 | one undisturbed execution: result, email and stamp |
| HitlNotify.ResultMeans | internal/hitlnotify/worker.go:104-153 | exactly when an execution is retried, snoozed, cancelled or sends, up to the deadline itself |
| HitlNotify.AfterMeans | internal/hitlnotify/worker.go:93-153 | what an execution leaves of the job: five minutes for an outage, an attempt of six for a failure or a crash, the end otherwise |
| HitlNotify.ExecutionUsesFuel | internal/hitlnotify/worker.go:93-153 | every execution brings the measure of attempts and snoozes down |
| HitlNotify.ExecutionsAreBounded | internal/hitlnotify/worker.go:93-153 | from any state executions are bounded by that measure |
| HitlNotify.NewJobBound | internal/hitlnotify/worker.go:30-43 | a job runs at most six times plus once per started snooze interval before the deadline |
| HitlNotify.NoExpiryNoBound | internal/hitlnotify/worker.go:141-147 | without an expiry time there is no bound |
| HitlNotify.FinishesIff | internal/hitlnotify/worker.go:93-153 | while its row does not change a new job is bounded exactly when the hold expires or there is nothing to notify about |
| HitlNotify.EmailsAreBounded | internal/hitlnotify/worker.go:124-133 | at most one email more than executions cut off between send and stamp |
| HitlNotify.EmailsRepeat | internal/hitlnotify/worker.go:124-133 | for every number of such executions below the cap a run reaches that many emails |
| HitlNotify.OneEmail | internal/hitlnotify/worker.go:124-133 | without such a crash at most one email goes out |

## Left out

- Letter case and white space are the ASCII ones; Unicode folding, IDNA and e-mail address syntax are not modelled.
- The lifecycle transition log, delivery details, claim and evidence timestamps and the evidence grace window of the terminal reconciler: they do not steer the transactions modelled here.
- MessageStore.Row.RecordTemporaryFailure: the deferral of a terminal failure, which writes only a diagnostic, is the step that changes nothing.
- MessageStore.Row.ClaimForSend: domain ramp reservations and the payload the claim returns are not part of this model.
- Event ids are structured values, so collisions of hashed ids cannot happen here; a nil event firer is not modelled.
- Deleting a message or hard-deleting an agent in the middle of a run.
- SettlementRuns.MeteredOnce: usage is counted when its transaction commits; the billing behind it is left out.
- ReviewRuns.JobsWereCleared: an address suppressed between the lookup and the compare-and-set is still queued, as in the code; the later check before the provider call is not part of this model.
- ReviewHold.SweepVerdict: the References header of a reply is not modelled, since no branch looks at it.
- ReviewActions.ReviewApi.ApprovePendingCore: the caller's idempotency key and the response body; `QueueAccept` covers keys on the accept path.
- The inbound approve and reject of a reviewer are the bare compare-and-set call; page texts of magic links and the screening that creates holds are left out.
- QueueAccept.AtMostOneSend: completed keys are swept after a day and a later retry is a new request; the sweep is not a step of these runs. The accept-time suppression check lets a send pass when its lookup fails, and the worker checks again, outside this model.
- IdempotencyKey.CapturingWriter.Finalize: the HTTP replay of a cached response and the length limit of keys.
- DmarcTree.WalkDMARCTree: length limits of names and labels, bracketed literals and the timeout of one lookup; invalid names are the empty list of labels.
- DmarcRecord.ParseDmarcRecord: which of several errors of a malformed record is reported.
- DmarcCache.ServedIsRecent: the mutex is modelled by each lookup and each store being one step.
- SPF evaluation, DKIM verification, SNS certificates and every other cryptographic check. `ApprovalToken.VerifiedMeans`: nothing is said about forging a MAC.
- ApprovalToken.Verify: overflow of expiry times beyond what the clock library represents.
- Pagination.HandleListSuppressions: cursor signatures, and rows stamped with the zero time, which the store never writes. `internal/httpapi/agent_suppressions.go` pages through the same functions; that its cursors name their agent is left out.
- String collation in the database is taken to be byte order.
- HitlNotify.NewJobBound: times are whole seconds; the delay before a retry after an error is not modelled, so a retry may come at once; the reconciler that enqueues lost jobs is left out.
- Message composition, HTML pages, OAuth, billing limits, the WebSocket relay, content scanning and configuration: plumbing or easy members.
