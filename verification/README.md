# Verification of the alerting core

A Dafny model of the parts of TokayOps that decide what an incident holds, who is
paged, who is told their shift began, which Telegram webhook is registered and
whether a user may be erased - and proofs of what every run of them keeps. Each loop
of the source is a method proved equal to a specification function; the laws are
lemmas about those functions, and each protocol is a state machine whose runs are
arbitrary sequences of moves.

`dafny verify dfyconfig.toml` checks everything (Dafny 4.11).

**Alerts and intake** (`Merge`, `Apply`, `History`, `MergeLaws`, `Staleness`,
`Timeline`, `Reading`, `Intake`, `Webhook`, `Transition`). An incident holds alerts;
payloads are filtered, merged, marked for staleness and applied. `History` reads the
incremental algorithm as one statement about the whole history of payloads; `Reading`
says when the stored timeline, read back by its instants, tells the same. `Intake` runs any
number of webhook requests and human resolves over the lock-free
apply-create-retry protocol and shows every interleaving to be a sequence of whole
deliveries.

**Escalation planning** (`Roster`, `Plan`, `PlanLaws`, `Building`, `Policies`, `Door`). A policy
is compiled into commitments with cumulative offsets, satellites and first-occurrence
de-duplication, through two memo tables that keep one plan consistent while the
database may answer differently every time it is asked. `Policies` says, from the rows
that are read, which policy decides, whom it calls and when there is a plan. `Door` is the admission a
plan is offered to, with any number of engines offering.

**Shift changes** (`Composition`, `Announcing`, `Detector`, `Claims`). A per-schedule
detector with a three-state cache, a warm-up rule and a closed rule for when a
transition is settled; the announcement builder; and the claim table that many
instances share.

**Telegram reconciliation** (`Telegram`, `TelegramQuiet`). Commands commit in one
order, their effects run in any order, one at a time per integration, each re-reading
its integration's row. Integrations come one after another and an id is never used
again.

**Erasure** (`Erasure`, `ErasureRuns`, `ErasureInstant`, `ErasureReach`,
`ErasureInputs`). Erasures, role changes, schedule saves and stand-ins at the
granularity of single locks, reads and commits; what holds at an erasure's instant,
and runs in which it does not.

## What the environment is taken to do

- A store call that returns an error changed nothing, except where a lost reply is a
  move of its own (`Claims`).
- `ApplyAlertmanagerUpdateAtomic` and `CreateAlertGroupAtomic` are one atomic action
  each; the partial unique index allows one open incident per alert key.
- Instants are integers. In the alert modules a unit is a microsecond; offsets and
  deadlines of commitments are whole seconds from the admission.
- Two commitments have one business key, and two shift changes one batch key, exactly
  when the fields the key is made of are equal: the digest is taken as injective.
- Strings compare by code point, which is Go's byte order for well-formed UTF-8.
- A rotation snapshot names the users of the configuration it was planned from.
- A rotation group lists a member once (`internal/rotation/snapshot.go:96-99`), so a
  layer does: `Announcing.BuiltIsForTheNewcomers` takes it so, the laws before it do not.
- An erasure's tail scan may see a tail as it was before or after the wait for that
  schedule's lock (`Reread`), since the query's snapshot is taken before it waits.

## Where the code and its words differ

- The incident a payload opens keeps its alerts in payload order, not in the listing
  order every merge produces. Its first identical repeat is therefore recognised as a
  repeat exactly when that order was already the listing order
  (`MergeLaws.OpeningRepeatIsRecognised`); otherwise it is reported as a merge.
- The erasure captures its instant after its last lock so that history never has the
  user gone while the revision in force still had them on call. The effective time of
  a save can be ahead of the clock by design, and then it still can
  (`ErasureInputs.SavedTwiceInOneInstant`). The same goes for stand-ins: a deletion ahead
  of the clock ends the overrides of its schedule when it takes effect, and no longer
  blocks an erasure meanwhile (`ErasureInputs.DeletedInOneInstant`). Exactly when, for
  every run and any clocks: `ErasureInstant.NamedOnlyWhereATailWasAhead` for rotations,
  `ErasureReach.ReachesOnlyToADeletion` for overrides, and
  `ErasureReach.CleanUnlessSomethingWasAhead` for both together.
- The planner's comments say the store does not return an erased person.
  `GetUsersByIDs` (`internal/store/store.go:2012-2037`) returns them; the plan model
  makes no assumption either way about which rows a read returns.
- An incident's history is read back by instant. Its lines are stamped from the start
  of the transaction that writes them, or at opening from the process's clock, and not
  from the moment the row was locked. A payload that waited for the row
  (`Reading.AWaitingPayloadMisleads`) or a process clock that runs ahead
  (`Reading.AFastProcessClockMisleads`) leaves a history that ends on a status the
  incident does not hold. Exactly when it does not is `Reading.TimelineTellsTheIncident`;
  stamps that each begin where the last payload's ended are enough
  (`Reading.SpacedHistoryTells`).
- A Telegram reconcile is described as converging whatever order effects run in. It
  does for one integration. A second integration that reuses a token can have it taken
  down by an unfinished effect of the first (`TelegramQuiet.AMovedTokenIsTakenDown`);
  the exact condition, at the commit, is `TelegramQuiet.ExactIffClear`.
- A plan refused because somebody it pages was erased is said to be planned without
  them on the next tick. That holds for people a schedule names, once it no longer
  does. A policy step that names the person is planned the same way every time, and the
  group is never escalated while it does (`Door.AnErasedStepIsNeverTaken`).
- Acknowledging or resolving a group nobody has touched answers that it was already
  done and leaves it new (`Transition.ShownAsItIs`).
- Repeats of a payload are recognised, and the timeline reads back, for payloads that
  name each fingerprint once. The exact conditions for all payloads are part of
  `MergeLaws.RepeatChangesNothing` and `Timeline.TimelineReadsBack`, and
  `History.NamedTwiceIsNotARepeat` is an input outside them.

## Model

| member | source | states |
|---|---|---|
| Order.SortIsSortedPermutation | internal/alertgroup/merge.go:131-136 | what the library sorts are taken to promise: a sorted permutation |
| Merge.FingerprintsOf | internal/alertgroup/merge.go:84-90 | the loop computes the latest status of each fingerprint |
| Merge.FilterMergeable | internal/alertgroup/merge.go:98-109 | exactly the incoming alerts the incident knows, or that fire, in order |
| Merge.MergeAlerts | internal/alertgroup/merge.go:118-138 | whatever order the map is walked in, the result is the one canonical list of the latest entry of each fingerprint |
| Apply.ReportedIn | internal/alertgroup/merge.go:256-262 | the names a payload carried, all of them and no others |
| Apply.MarkStale | internal/alertgroup/merge.go:274-291 | a fresh slice in which exactly the firing, unmarked, unreported alerts gain the instant; the argument is untouched; the count is the number of marks |
| Apply.ReportedAgain | internal/alertgroup/merge.go:307-328 | one entry, in payload order, for each payload alert whose fingerprint was silent, never with a negative gap |
| Apply.HeldOnlyByStale | internal/alertgroup/merge.go:337-348 | true iff something is stale and nothing is firing and reported |
| Apply.AllResolved | internal/alertgroup/merge.go:355-362 | true iff no alert has the status firing, stale ones included |
| Apply.SameStrings | internal/alertgroup/merge.go:186-196 | comparing one way and the sizes is equality of maps |
| Apply.SameAlert | internal/alertgroup/merge.go:166-183 | equality of every stored field, absent mark and present mark told apart |
| Apply.SameAlerts | internal/alertgroup/merge.go:154-164 | equality of the two lists |
| Apply.Apply | internal/alertgroup/merge.go:226-249 | the whole effect of a notification, every field of the result |
| Apply.EffectMeaning | internal/alertgroup/merge.go:226-249 | fingerprint by fingerprint, what the incident holds after a payload, as one step from what it held before |
| Apply.MergedMeaning | internal/alertgroup/merge.go:111-138 | a merge holds the latest of each fingerprint and is in canonical form |
| Apply.AcceptedMeaning | internal/alertgroup/merge.go:92-109 | an incident takes the last entry for a name it knows, and for one it does not the last firing entry if there is one |
| Apply.RelevantBelongs | internal/alertgroup/merge.go:92-109 | what merges is every entry of the payload about an alert the incident holds, and every firing one |
| Apply.RelevantInOrder | internal/alertgroup/merge.go:98-109 | in the order and as often as it came |
| Merge.LatestIsLast | internal/alertgroup/merge.go:111-130 | of several entries of a fingerprint the last decides |
| History.HeldIffEverFired | internal/alertgroup/merge.go:92-138 | over any history of payloads, a fingerprint is held iff it ever fired in it |
| History.HistoryDecides | internal/alertgroup/merge.go:226-291 | its value is its last report, marked from the first later snapshot that left it out if it was firing, unmarked otherwise |
| History.LastNamingDecides | internal/alertgroup/merge.go:226-291 | with each fingerprint named once per payload, the last payload naming it decides: absence is not a report |
| History.ResolvesExactly | internal/alertgroup/merge.go:350-362 | an incident ends iff everything that ever fired was last reported as not firing |
| History.NamedTwiceIsNotARepeat | internal/alertgroup/merge.go:98-109 | a payload naming an unknown alert firing and then resolved is firing the first time and resolved the second |
| MergeLaws.MergedIsStrictlyOrdered | internal/alertgroup/merge.go:114-138 | no two alerts of a merge share a place in the (start, fingerprint) order |
| MergeLaws.CanonicalUnique | internal/alertgroup/merge.go:114-138 | there is one canonical list for a set of latest entries |
| MergeLaws.MergeInTwoSteps | internal/alertgroup/merge.go:111-138 | merging b and then c is merging b followed by c |
| MergeLaws.MergeIgnoresPayloadOrder | internal/alertgroup/merge.go:114-138 | a permutation of a payload with distinct fingerprints merges to the same list |
| MergeLaws.RepeatChangesNothing | internal/store/alert_merge.go:73-93 | applying a payload again at any later instant leaves the alerts identical iff it said one thing of each alert it opened |
| MergeLaws.RepeatIsNotNews | internal/alertgroup/merge.go:264-349 | a repeat adds no mark, brings nothing back and does not raise held-only-by-stale |
| MergeLaws.OpeningRepeatIsRecognised | internal/store/alert_merge.go:83-93 | the first repeat after an incident is opened is recognised iff its alerts were stored in listing order |
| Staleness.MarksAreConserved | internal/alertgroup/merge.go:226-328 | stale after = stale before + marked - those named again; the returns counted are never fewer, and equal iff no silent alert is named twice |
| Staleness.HeldIsOrderly | internal/alertgroup/merge.go:264-291 | in every reachable state a mark stands on a firing alert |
| Staleness.StaleIsMarksLessReturns | internal/alertgroup/merge.go:210-218 | over a whole run, marks minus returns are the alerts stale now |
| Staleness.MarksAreInThePast | internal/store/alert_merge.go:134-150 | with a clock that does not step back no mark is later than the last payload |
| Staleness.SilenceIsMeasured | internal/alertgroup/merge.go:300-328 | what a payload brings back is one line per entry about an alert held with a mark, in order: its status, and the time since the mark or nothing if the clock stepped back |
| Staleness.SilenceBeganWithASnapshot | internal/alertgroup/merge.go:264-328 | by the history: the silence began with the first snapshot that went out without the alert after it was last reported firing |
| Staleness.HeldOnlyByStaleIsNew | internal/alertgroup/merge.go:226-249 | the field is set iff afterwards something fires and nothing that fires is still reported, of what is held by fingerprint, and before the payload that was not so |
| Staleness.HeldOnlyByStaleOverHistory | internal/alertgroup/merge.go:330-348 | by the history: iff something was last reported firing and all that was has been left out of a snapshot since, and one payload earlier that was not so |
| Timeline.MergeTimelineEvents | internal/alertgroup/merge.go:376-410 | the loop writes one line per change against the state before the payload |
| Timeline.EventsAreInOrder | internal/alertgroup/merge.go:373-410 | the lines of one payload have strictly increasing instants |
| Timeline.OneLineEach | internal/alertgroup/merge.go:376-410 | one line for each entry that opens an alert or turns one the incident held, at the next instant; none for any other word |
| Timeline.TimelineReadsBack | internal/alertgroup/merge.go:364-410 | replaying the lines over the statuses before gives the statuses after iff nothing the payload names comes back to where it was |
| Timeline.OpeningReadsBack | internal/ingester/http.go:270-293 | the lines written at creation say the status of every alert the incident opens with |
| Timeline.WrittenOrderTells | internal/store/alert_merge.go:83-116 | over a whole run from creation, the lines in the order they were written reconstruct every alert's status |
| Reading.TimelineTellsTheIncident | internal/store/store.go:2284-2312 | whatever clocks stamped the lines, the history as it is read - by instant, then id - gives every alert's status iff for each alert the line with the greatest stamp says what the line written last says |
| Reading.SpacedHistoryTells | internal/store/alert_merge.go:95-116 | it does whenever each payload's lines are stamped from an instant no earlier than the last stamp already written |
| Reading.AWaitingPayloadMisleads | internal/store/alert_merge.go:120-150 | it need not: a payload that waited for the row lock is stamped from when its transaction began, and the history ends on the status of the one that overtook it |
| Reading.AFastProcessClockMisleads | internal/ingester/http.go:257-293 | nor without any race: opening lines stamped by a process clock ahead of the database's outlive a later resolution |
| Intake.PayloadAlerts | internal/ingester/http.go:49-68 | the payload's alerts, in order, none with a mark |
| Intake.NotificationOf | internal/ingester/http.go:70-84 | the alerts unmarked, one for one; a snapshot iff the payload named its group, carried alerts and had none cut off |
| Intake.ASnapshotIsTheWholeGroup | internal/ingester/http.go:26-29 | of a group's alerts sent up to a limit, the payload counts as the whole set exactly when nothing was cut, and then it is the whole set in order |
| Intake.AlertsAsSent | internal/ingester/http.go:38-57 | every field of an alert is taken as it was sent |
| Intake.EveryRunLinearises | internal/ingester/http.go:211-369 | every interleaving of any number of requests and human resolves equals a sequence of whole deliveries; one open incident per key throughout |
| Intake.A200HasItsPoint | internal/ingester/http.go:211-369 | a request answered 200 has exactly one point in that sequence, where the incidents change by its delivery and nothing else |
| Intake.OnlyA200Changes | internal/ingester/http.go:216-219 | no other move of a request changes an incident, so one answered 500 changed none |
| Intake.OpeningIsApplyToNothing | internal/ingester/http.go:239-262 | the incident a payload opens is the payload applied to an empty set, up to order |
| Intake.FiringIsRecorded | internal/store/alert_merge.go:29-116 | after its delivery every alert a payload last reported firing is so recorded in the open incident of its key |
| Intake.AnOpenIncidentAbsorbs | internal/store/alert_merge.go:29-116 | a payload of whatever statuses is the next of the open incident's history, its alerts are that history's, and it stays open iff something was last reported firing; nothing else is touched |
| Intake.NothingOpenOpensOne | internal/ingester/http.go:234-262 | with none open, a payload in which something fires opens one with just what fires; any other changes nothing |
| Intake.IncidentIsItsHistory | internal/ingester/http.go:211-369 | what any incident of any run holds is the declarative reading of what was delivered to it |
| Webhook.Store.FindOpen | internal/store/alert_merge.go:42-57 | the open incident of the key, if there is one |
| Webhook.Store.ApplyUpdate | internal/store/alert_merge.go:29-116 | one delivery to the open incident, or nothing when none is open |
| Webhook.Store.Create | internal/store/store.go:1065-1121 | inserts iff no incident of the key is open |
| Webhook.FiringAlerts | internal/ingester/http.go:239-246 | exactly the firing alerts, in order |
| Webhook.HandleWebhook | internal/ingester/http.go:167-369 | the request as written, with anything happening between its calls, is a run of one request through the protocol; 400 iff it has no key |
| Webhook.WhereItIsTaken | internal/ingester/http.go:211-369 | for every payload, the one point where it is delivered - at the first call if an incident is open or nothing fires, else at the create, else at the retry - and exactly when it is answered 500 and changes nothing |
| Webhook.A200IsRecorded | internal/ingester/http.go:211-369 | whatever happened between the calls, a 200 leaves every firing alert recorded in the open incident, and the store sound |
| Transition.OneWinner | internal/alertgroup/transition.go:54-149 | with any number of callers, one applied acknowledgement and one applied resolution per group |
| Transition.NoAckAfterResolve | internal/store/store.go:1208-1227 | no acknowledgement is applied after a resolution |
| Transition.LosersAreToldSo | internal/alertgroup/transition.go:86-92 | in any run, a caller whose swap failed is told it was already done however late it reads again, of a group that has come at least as far as its call goes; only a first read of a group still new is told so of one that has not |
| Transition.Groups.Swap | internal/store/store.go:1208-1227 | one conditional statement: changed iff the status was one the swap starts from |
| Transition.Groups.Acknowledge | internal/alertgroup/transition.go:54-99 | read, swap, re-read, with others' changes in between: final rows and answer |
| Transition.Groups.ResolveByHand | internal/alertgroup/transition.go:101-149 | the same for a resolution |
| Transition.ShownAsItIs | internal/alertgroup/transition.go:82-98 | the group shown is the group as the call leaves it, at least as far as the call goes unless it was new; of a new group the answer is already done and nothing changes |
| Transition.ACallIsARun | internal/alertgroup/transition.go:54-149 | the call is the run of one caller through the concurrent machine |
| Roster.RosterTable.PeopleOf | internal/engine/plan.go:219-253 | one call of the table, what is known afterwards and the answer |
| Roster.RosterTable.Fetch | internal/engine/plan.go:233-244 | everyone asked about is absent until a row says otherwise, rows in any order |
| Roster.OneAnswerPerPerson | internal/engine/plan.go:201-253 | however the store changes between calls, every answer of one plan is read off the one map it ends with |
| Roster.EachPersonIsFetchedOnce | internal/engine/plan.go:227-243 | nobody is answered by two successful fetches |
| Roster.KnownIsAsFirstRead | internal/engine/plan.go:219-253 | what a plan knows of a person is what the table said at the first answered call that asked for them |
| Roster.AnsweredIff | internal/engine/plan.go:227-243 | a call is answered iff the table can be read or nobody new is asked for |
| Roster.PresentAre | internal/engine/plan.go:245-253 | an answer is everybody asked for who has a row, and nobody else |
| Roster.PresentInOrder | internal/engine/plan.go:245-253 | in the order asked |
| Roster.ScheduleResolver.UsersFor | internal/engine/plan.go:623-674 | who is on duty for a step, and what is remembered of the question |
| Roster.ScheduleResolver.Hydrate | internal/engine/plan.go:682-691 | the projected people, in the projection's order, through the shared table |
| Roster.OneAnswerPerSchedule | internal/engine/plan.go:605-674 | within one plan a schedule resolves to one answer, failures included |
| Roster.TeamAnswersForItself | internal/engine/plan.go:632-641 | a team with a schedule gives every step one answer and never falls back |
| Roster.FirstQuestionIsAnswered | internal/engine/plan.go:623-691 | the first question about a schedule is answered iff the team, the schedule if the team has none of its own, and the people of the first layer can be read; damage is an answer |
| Roster.KnownFromTheTable | internal/engine/plan.go:161-253 | whatever a plan knows of a person the table said when some question was asked |
| Roster.EveryoneIsOnOneMap | internal/engine/plan.go:161-253 | every answer names the people its first projection named, as the plan's final map has them |
| Plan.SlotTargetTells | internal/engine/plan.go:731-737 | the key is injective when no provider has a slash, decimals and recipients with slashes included |
| Plan.SlashConfuses | internal/engine/plan.go:735-737 | with a slash in a provider two commitments can share a key |
| Plan.Satellites | internal/engine/plan.go:769-791 | the two satellites of a Slack channel card, and none of any other |
| Plan.RecipientsOf | internal/engine/plan.go:532-555 | a schedule's people, the named recipient, or nobody |
| Plan.PromiseEach | internal/engine/plan.go:463-504 | with the keys seen so far, promises exactly the recipients not promised yet and records the rest |
| Plan.CommitStep | internal/engine/plan.go:415-505 | what one step adds to the two lists, or that it cannot be decided |
| Plan.PromiseSteps | internal/engine/plan.go:416-506 | the loop over the steps, with its running offset, equals the survey's first occurrences and notes |
| Plan.Commitments | internal/engine/plan.go:376-507 | the planned list is the firehose and the first occurrences of what the policy asks for; the notes are everything else it asked for |
| Plan.DelaysAddUp | internal/engine/plan.go:412-421 | the delays of a policy add up step by step |
| PlanLaws.NothingIsPromisedTwice | internal/engine/plan.go:388-504 | no two commitments of a plan share slot, provider and recipient, firehose and satellites counted |
| PlanLaws.NothingUnaskedIsPromised | internal/engine/plan.go:391-524 | every card is the firehose's or says exactly what its step says - stop flag, words, edits, call expiry - to that recipient at that time |
| PlanLaws.EveryRecipientIsPromised | internal/engine/plan.go:463-504 | every recipient a step asked for is promised, by the first step that asked |
| PlanLaws.NothingIsLost | internal/engine/plan.go:448-476 | cards and notes account for everything asked for, one for one |
| PlanLaws.StepIsAccountedFor | internal/engine/plan.go:435-476 | each step adds one note and no card - no channel, nobody on call or no target, whichever it is - or one card or Duplicate note, naming the recipient, per recipient |
| PlanLaws.DueAfterTheDelays | internal/engine/plan.go:412-421 | each message is due the sum of the delays up to its step, promised or not |
| PlanLaws.SurveyIsAimed | internal/engine/plan.go:435-554 | every request of every policy goes through a provider that delivers, to a person or a channel: the hypotheses of the laws of plans always hold |
| PlanLaws.PlanIsInOrder | internal/engine/plan.go:412-421 | with no negative delay the plan's offsets never go back |
| PlanLaws.SatelliteFollowsItsCard | internal/engine/plan.go:764-791 | under every edited Slack channel card, and no other, stand its thread and the reply that closes it: same slot, provider and time, the thread edited, the reply not, nothing of their own |
| PlanLaws.PolicyRows | internal/engine/plan.go:702-720 | the loop keeps exactly the entries that are not satellites |
| PlanLaws.RecordIsTheCards | internal/engine/plan.go:693-720 | the recorded policy is the firehose card and the policy's cards, in order |
| PlanLaws.AdmissionAccepts | internal/outbound/keys/escalation.go:102-382 | the grammar and the gate accept a plan iff its first requests have an index, a time and a recipient they can name; never a refusal over repeats, orphans or providers |
| Building.OnCallSnapshot | internal/engine/plan.go:161-199 | who the group says was on duty, or that nothing is recorded |
| Building.BuildPlan | internal/engine/plan.go:71-137 | defer, refuse or admit: the decision from every read it makes |
| Building.AFailedReadDefers | internal/engine/plan.go:302-325 | a plan exists only if the team, the policy and the on-call reads that decide it succeeded or came back with a fact |
| Building.AnUnreadScheduleDefers | internal/engine/plan.go:650-673 | a schedule read by id decides a step only if it and its people were read, or it is damaged and nobody is paged |
| Building.SchedulePagesItsPeople | internal/engine/plan.go:526-545 | a schedule step of a built plan asks for everybody its schedule named whom the store has, in order, and for nobody else |
| Building.TheGroupShowsWhoIsPaged | internal/engine/plan.go:96-100 | the first layer of the snapshot names exactly the people paged and needs no read of its own |
| Building.ProcessNewAlertGroups | internal/engine/engine.go:101-230 | submits exactly the built plans, in order; counts the deferrals and names the first; counts exactly the submitted plans that had gone stale |
| Building.EachGroupForItself | internal/engine/engine.go:138-224 | each group is submitted or not by its own reads alone, after the built groups before it; as many as are built |
| Building.EachDeferralForItself | internal/engine/engine.go:154-170 | the same for deferrals, so the first one named is the first deferred |
| Building.StaleAre | internal/engine/engine.go:200-210 | the stale count is the number of built plans the store says that of |
| Building.OnlyBuiltPlansAreSubmitted | internal/engine/engine.go:152-193 | everything submitted is some group's built plan |
| Policies.ThePolicyDecides | internal/engine/plan.go:71-137 | in the rows' own fields: a built plan is that of the policy the found team's row names for the severity, under that id; with no team, id or policy it is the firehose alone; the firehose's channel is the severity's; whether buttons are offered |
| Policies.PlanIsThePolicys | internal/engine/plan.go:376-555 | a plan has a message to a channel or a person iff some step with a channel to deliver through names it, or asks a schedule that has the person on duty |
| Policies.MessagesOfABuiltPlan | internal/engine/plan.go:376-524 | each message says what one of the policy's steps says, due the delays up to it; the record is the plan but for satellites; messages and notes account for every request |
| Policies.WhenAPlanIsBuilt | internal/engine/plan.go:71-137 | deferred iff the team, the policy or some schedule question cannot be answered; refused iff the state cannot be frozen or some first request cannot be named; built otherwise |
| Policies.AnOrdinaryPolicyIsBuilt | internal/engine/plan.go:71-137 | steps with an index and no negative delay, and people with ids, are built as soon as everything can be read |
| Policies.BuiltPlansCanBeNamed | internal/outbound/keys/escalation.go:102-382 | every message of a built plan has an index, a time, a recipient and a provider, and no two are one |
| Policies.PeopleOfASchedule | internal/engine/plan.go:623-691 | whom a schedule step calls: the first layer of the team's own schedule, else of the one the step names as first read, else nobody |
| Policies.DutyIsTheTeams | internal/engine/plan.go:161-199 | the recorded duty in the team's own fields, and exactly when none is recorded |
| Door.Escalations.Submit | internal/store/outbound_store.go:314-491 | one admission: the claim answers first, then erased recipients, the gate, the group's status and its version; only a new claim writes, and what it writes |
| Door.ErasedRecipients | internal/store/outbound_store.go:710-747 | exactly the erased people the plan promises a message, sorted; somebody without a row is not one of them |
| Door.PlanPromisesErased | internal/store/outbound_store.go:682-722 | a built plan promises somebody erased iff a step with a channel names them, or asks a schedule whose people include them |
| Door.ABuiltPlanIsTaken | internal/store/outbound_store.go:371-427 | what becomes of a built plan of an unclaimed group, each answer with its exact condition: refused iff its steps page somebody erased, otherwise taken iff the group waits at the version it was planned from |
| Door.WhatAnAdmissionWrites | internal/store/outbound_store.go:371-491 | nothing unless it claims the group; then the claim, the policy, the duty if recorded, and that the group is not new; a claimed group answers by its claim's fingerprint |
| Door.ClaimsStand | internal/store/outbound_store.go:771-869 | a claim once made stands as it was made |
| Door.OneEscalationPerGroup | internal/store/outbound_store.go:305-313 | over any number of engines one escalation per group is created, the policy and the duty on the group's row are the claimed plan's, and it is new no more |
| Door.AnErasedStepIsNeverTaken | internal/outbound/commands.go:293-298 | while a group's policy names somebody erased outright, every plan for it is refused in full, over any run |
| Composition.Observe | internal/handoff/composition.go:72-98 | the layer's people in sorted order, each as often as listed; source, group and instants as projected; the override's revision iff an override put them there; nobody on the layer is the empty duty |
| Composition.OneDescription | internal/handoff/composition.go:72-98 | there is exactly one observation of that description for each projection |
| Composition.OrderIsNotSeen | internal/handoff/composition.go:22-44 | two observations have one composition iff source, group and people agree, whatever the order of the people and the boundaries |
| Composition.Equal | internal/handoff/composition.go:104-114 | the loop decides equality |
| Composition.AddedUsers | internal/handoff/composition.go:171-183 | next minus prev, in next's order |
| Composition.Classify | internal/handoff/composition.go:139-168 | the kind of a transition and its audience |
| Composition.ToldAreTheNewcomers | internal/handoff/composition.go:123-168 | somebody is to be told iff they are on duty and were not, on a schedule observed before |
| Composition.WhichTransition | internal/handoff/composition.go:123-168 | there is a transition iff somebody is on duty and the source, the group or somebody on duty is another; a handoff iff the source or group is |
| Composition.NewcomersTimes | internal/handoff/composition.go:139-183 | each newcomer is to be told as often as the projection lists them, and no transition means no newcomer |
| Announcing.ReachableThrough | internal/handoff/builder.go:165-175 | the usable providers of a person, sorted |
| Announcing.WhyUnreachable | internal/handoff/builder.go:184-203 | the four passes give the first reason any link gives |
| Announcing.TheReasonThatSaysMost | internal/handoff/builder.go:177-203 | the reason is the highest-ranking one over the person's links, and no identity iff they have none |
| Announcing.WhoIsReached | internal/handoff/builder.go:165-175 | a provider reaches a person iff they have an account there with an id and the catalog carries direct messages through it |
| Announcing.LinkOrderDoesNotMatter | internal/handoff/builder.go:162-203 | providers and reason are the same for every order of the links |
| Announcing.Build | internal/handoff/builder.go:102-160 | the announcement and the people left out, or that nothing can be claimed |
| Announcing.AudienceIsPartitioned | internal/handoff/builder.go:115-137 | for every list of people to tell: each is entered at a provider once per usable link there, or left out with their own reason and no other, as often as named; nobody else is either |
| Announcing.EnteredOnceEach | internal/outbound/keys/handoff.go:437-465 | nobody is entered twice iff everybody reachable is named once and has one usable link at each provider, which the grammar asks for |
| Announcing.BuiltSaysTheShift | internal/handoff/builder.go:102-160 | every field of a built announcement as the shift was projected |
| Announcing.WhenItIsBuilt | internal/outbound/keys/handoff.go:398-520 | built iff the links were read and the schedule, the ends of the shift, the people, the zone and the grid can be said, nobody entered twice |
| Announcing.BuiltIsForTheNewcomers | internal/handoff/builder.go:102-160 | of a layer that lists each person once, what is built enters each newcomer once at every provider that reaches them or leaves them out once with their reason, and concerns nobody else |
| Detector.Notifier.Tick | internal/handoff/notifier.go:151-229 | the new cache, warm-up flag and offers of one tick; a failed read changes nothing |
| Detector.Notifier.CheckSchedule | internal/handoff/notifier.go:232-256 | one schedule against what was last seen of it |
| Detector.Notifier.HandleHandoff | internal/handoff/notifier.go:267-344 | the cache moves on Created, Existing and Conflict and on nothing else; only Created counts the people left out |
| Detector.NamedIffEntered | internal/handoff/notifier.go:231-344 | a settled announcement names exactly the people who thereby entered the cached composition |
| Detector.WhatACheckDoes | internal/handoff/notifier.go:231-344 | one check, whatever it finds: what is offered, what is taken up and when nothing is |
| Detector.EachScheduleForItself | internal/handoff/notifier.go:194-198 | in a tick each schedule is checked against what was cached of it when the tick began, and offered for itself |
| Detector.NobodyOnDutyIsTold | internal/handoff/composition.go:135-153 | nobody in the cached composition is announced to |
| Detector.UnsettledIsSeenAgain | internal/handoff/notifier.go:258-266 | an unsettled transition has the same kind and audience at the next check, a settled one is over |
| Detector.WhatATickMayChange | internal/handoff/notifier.go:139-199 | a tick whose projection or teams could not be read changes nothing; any other warms up, is its checks in order, and leaves unprojected schedules alone; the first announces nothing |
| Detector.WarmUpRecords | internal/handoff/notifier.go:134-151 | warming up records what each projected schedule looks like |
| Detector.ToldAsOftenAsEntered | internal/handoff/notifier.go:151-364 | over every run of a process, settled announcements naming a user on a schedule are as many as the times the user entered its cached composition after its first observation |
| Detector.NobodyWhoStaysIsTold | internal/handoff/notifier.go:232-256 | somebody on duty throughout is never told in it |
| Claims.OneAnnouncementPerShiftChange | internal/store/outbound_store.go:500-578 | over any number of instances, restarts and lost replies an occurrence is created at most once and its skipped people are counted at most once |
| Claims.HeldForGood | internal/store/outbound_store.go:771-869 | a held occurrence stays held by the announcement that took it |
| Claims.WhatTheStoreSays | internal/store/outbound_store.go:500-578 | each answer with its exact condition, and what is held afterwards, lost replies and failed calls included |
| Claims.AShiftChangeIsAnnounced | internal/handoff/notifier.go:231-344 | a change an instance sees somebody enter is offered, and taken up iff it heard that it is held |
| Claims.ProposedIsBuilt | internal/handoff/notifier.go:267-300 | what it offers is the announcement of the transition it saw |
| Claims.AHeldOccurrenceSettles | internal/store/outbound_store.go:523-533 | over any run, once an occurrence is held every later answer about it, to any instance, is Existing or Conflict by its fingerprint, whoever has been erased since |
| Claims.NobodyMovesOnUnannounced | internal/handoff/notifier.go:261-266 | in any run, when an instance takes up a composition somebody newly enters, the move is its check of that schedule and the store holds the announcement of that very transition afterwards |
| Telegram.TelegramTokensOf | internal/api/integration_handlers.go:510-522 | the distinct tokens the rows carry, in order |
| Telegram.TokensAre | internal/api/integration_handlers.go:509-533 | a token is listed iff a row carries it, once |
| Telegram.TokensAreTheRows | internal/api/integration_handlers.go:509-533 | the tokens are the non-empty ones that Telegram rows' configurations parse to |
| Telegram.TokensInOrder | internal/api/integration_handlers.go:510-522 | in the order of the rows |
| Telegram.Reconcile | internal/api/integration_handlers.go:481-507 | token by token, from the row's own fields: an enabled row's token is left alone and, given an address, registered; every other candidate is removed; nothing else changes |
| Telegram.EveryStrayIsACandidate | internal/api/integration_handlers.go:464-507 | in every interleaving of commands, reads and calls, over any number of integrations one after another, a registered token other than the current enabled one is a candidate of an unfinished reconcile |
| Telegram.QuietLeavesNoStray | internal/api/integration_handlers.go:466-480 | with no reconcile left nothing but the current enabled token is registered |
| Telegram.QuietIsTheRows | internal/api/integration_handlers.go:464-507 | with no reconcile left a token is registered only if an integration's row is enabled and parses to it, and there is an address |
| Telegram.EffectsFinish | internal/store/integration_lifecycle_store.go:261-296 | each move of an effect leaves less to do and until nothing is left one can move, so every order converges |
| Telegram.UninterruptedIsReconcile | internal/api/integration_handlers.go:486-503 | an effect no commit interrupts does what the method does |
| Telegram.EffectsOfTheirOwnBreak | internal/api/integration_handlers.go:468-474 | the same commands with effects that act on what their own command saw: a run ends, every effect done, with a stray token nobody is after |
| TelegramQuiet.QuietMeansExact | internal/api/integration_handlers.go:466-480 | in a run whose commands brought no token an unfinished effect of another integration carried, the quiet state is exactly the current enabled token, or nothing |
| TelegramQuiet.ClearMeansTheRows | internal/api/integration_handlers.go:464-507 | in such a run, iff |
| TelegramQuiet.ExactIffClear | internal/store/integration_lifecycle_store.go:261-296 | for every create or update of every run: all orders of the effects end with exactly its token iff, when it committed, no unfinished effect of another integration carried that token |
| TelegramQuiet.AThreatCanTakeItDown | internal/api/integration_handlers.go:486-503 | otherwise some order of the effects ends with nothing registered |
| TelegramQuiet.AMovedTokenIsTakenDown | internal/store/integration_store.go:37-41 | deleting an integration and creating one with the same token before the deletion's effect ran is never safe |
| TelegramQuiet.OneIntegrationIsAlwaysClear | internal/api/integration_handlers.go:466-480 | a run with one integration always is |
| Erasure.SnapshotNames | internal/erasure/service.go:198-209 | true iff the user is in some group of some layer |
| Erasure.BlocksMeans | internal/erasure/service.go:129-174 | a schedule blocks iff a live override of the user is on it or its tail has them in some group of some layer |
| Erasure.BlockedByRotation | internal/erasure/service.go:166-174 | exactly the schedules whose tail names the user, by id, each with the team of such a tail |
| Erasure.GuardAssignments | internal/erasure/service.go:140-162 | lists exactly the blocking schedules of both sources, each once, sorted, with the team an override on it gives or, without one, a tail that names the user |
| Erasure.Users.GuardLastAdmin | internal/erasure/service.go:183-195 | true iff the user is an administrator and no other active one is left |
| Erasure.Users.Erase | internal/erasure/service.go:51-127 | each outcome with its exact condition - not found, already erased, a read that failed, on call, last administrator, done - what a refusal lists, and the whole of what is written; an administrator remains |
| ErasureRuns.EveryRunKeepsInv | internal/erasure/service.go:37-127 | what every interleaving of erasures, role changes, saves and stand-ins keeps, at the granularity of single locks and reads |
| ErasureRuns.InForceMeans | internal/scheduleconfig/repository.go:100-120 | in force is the last revision that had begun |
| ErasureRuns.EffectiveMeans | internal/scheduleconfig/repository.go:264-285 | a save takes effect now, or one unit after what it replaces |
| ErasureRuns.EndedMeans | internal/scheduleconfig/override.go:226-305 | an ended override covers what it covered before that instant and nothing after |
| ErasureRuns.AlwaysAnAdministrator | internal/store/store.go:2207-2250 | at every moment at least one active administrator remains |
| ErasureRuns.ErasedAreOnNoRotation | internal/store/erasure_store.go:88-98 | at every moment no live rotation names anybody erased |
| ErasureRuns.SavedAreSafe | internal/store/schedule_revision_store.go:218-247 | a save about to commit names nobody whom a running erasure has locked |
| ErasureInstant.TheInstantIsClean | internal/erasure/service.go:68-86 | with everybody reading one clock and no schedule saved twice in one unit of it, at a committed erasure's instant no revision in force names the user and no override of theirs reaches past it, for good, however long after reading the clock a save commits |
| ErasureInstant.NamedOnlyWhereATailWasAhead | internal/scheduleconfig/repository.go:264-285 | over every run, whatever the clocks say: a schedule names an erased user at the instant of the erasure iff the tail it had when that was decided was to begin later and what it replaced names them |
| ErasureReach.ReachesOnlyToADeletion | internal/store/erasure_store.go:167-191 | over every run, whatever the clocks say: an override of an erased user reaches past the instant of the erasure iff it did when that was decided, on a schedule whose deletion was to take effect later, and was not cancelled back or replaced since; and then only to that deletion |
| ErasureReach.CleanUnlessSomethingWasAhead | internal/erasure/service.go:68-86 | over every run and any clocks, at the instant of a committed erasure no revision in force names the user and no override of theirs reaches past it iff, of what stood when it was decided, no schedule's tail was ahead over a revision that names them and no reaching override was left by a deletion ahead |
| ErasureInputs.SavedTwiceInOneInstant | internal/scheduleconfig/repository.go:264-285 | it happens: a run in which two saves within one unit of time put the tail ahead of the clock, and the user taken off duty is erased while the revision in force names them |
| ErasureInputs.DeletedInOneInstant | internal/scheduleconfig/service.go:443-514 | it happens for overrides too: a run in which a schedule is deleted in the unit it was saved in, and a user who stands in on it is erased while on duty by that override |
| ErasureInputs.RoleAlone | internal/store/store.go:2207-2250 | a role change makes an administrator of anybody alive and takes the role from one unless they are the last |
| ErasureInstant.RefusedForWhatBlocks | internal/erasure/service.go:140-162 | whatever runs beside it, a deciding erasure is refused for every schedule that blocks it now, for nothing else when its tails are current, goes on iff nothing is in the way and another administrator is left, and writes nothing |
| ErasureInstant.SomebodyCanAlwaysMove | internal/erasure/service.go:43-47 | locks taken in the global order never leave every command waiting: one of those running can take its next step |

## Left out

- HTTP binding, authentication of webhooks, status texts, logging and metrics, except the counters a property names.
- JSON, UUIDs, encryption, message rendering and the wording of timeline lines and reasons: none of them decides anything above.
- The delivery worker, leases, replays and the rendering of schedules; a projection is an arbitrary answer.
- Overflow of durations and of the 64-bit clocks: instants and offsets are unbounded integers.
- Starting the planner without a store, which only its tests do.
- The team's name and onboarding flag inside a frozen card; freezing is one read that succeeds or not.
- Which of Ignored and Unchanged a payload with nothing relevant is answered: no property depends on it.
- Retention and closing of incidents other than by resolution; acknowledgement by any route but the service.
- A crash that loses a pending Telegram effect together with its candidates, and Telegram calls that fail: both leave a stray until the token is seen by another command.
- Two Telegram integrations at one time: the source refuses a second one.
- What an erasure wipes besides the user row (tokens, identities, endpoints, reasons, memberships): one unconditional write each.
- Team membership as a further refusal of a save, the actor's own lock, the team row lock of a first save, and the removal of members and teams: they refuse or serialise more than the model does.
- Locks taken by admissions on the people they name: they only exclude an erasure for longer.
- Intake.EveryRunLinearises: a request is modelled from its parsed payload on; the integration check before it and the team read inside it only add moves that answer 500.
- Claims.OneAnnouncementPerShiftChange: a count lost with a lost reply is lost; the statement is at most once, as in the code.
- ErasureInstant.TheInstantIsClean: for clocks that agree and no schedule saved twice in one unit of time; the statement for arbitrary clocks, in both directions, is `ErasureReach.CleanUnlessSomethingWasAhead`.
- Overlaps of overrides, and the refusal to cancel or update one that has ended or whose schedule is deleted: the model allows more. An update of an override in force is a cancel followed by a stand-in here, one transaction in the source.
- Claims.NobodyMovesOnUnannounced: takes a schedule to be checked once in the tick that warms an instance up, as its id is a key of the projection.
- Timelines of more than the lines a payload writes: lines of acknowledgements and of resolution carry no alert's status.
