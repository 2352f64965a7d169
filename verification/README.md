# A model of the household app's protocols

The application keeps a household's accounts, chores, skills, badges, diaries and files. This project models the
parts whose guarantees span many operations or whole histories, and proves those guarantees:

- the Google return protocol: a flow row moves from pending through processing and ready to consumed or failed
  while password changes, role changes, logouts, links, unlinks and pruning interleave with it;
- the checks made before an account is deleted: two depth-first searches, over models and over records;
- skills, levels and unlocks, weighted XP splitting, and the re-entrant badge evaluator;
- badge goals: which ones are hidden, and what the checkers could still accept;
- the outbox behind deleted media, and retried saves of grades and journal entries;
- chores and creations: schedules on ISO weeks, the available list, approval and pay.

`dafny verify dfyconfig.toml` checks everything.

## How it is built

Each stateful component has a specification made of functions on values (one function per transaction), a class
whose methods rewrite its fields step by step as the source does and are proved equal to those functions, and lemmas
about single steps, about all reachable states and about whole runs. A run is a sequence of events of any kind, in any
order and by any caller; a stale copy held by a caller is a parameter of the event.

| Files | Source |
|---|---|
| `GoogleReturn`, `GoogleInvariant`, `GoogleRuns`, `GoogleJourneys`, `GoogleSuccess`, `GoogleStore` | `apps/google_integration`, `apps/accounts/models.py` |
| `ModelGraph`, `Ownership` | `apps/accounts/lifecycle.py` |
| `Skills`, `XpSplit`, `Awards`, `Badges`, `BadgeEvaluation`, `BadgePayouts` | `apps/achievements/services.py`, `apps/chronicle/services.py` |
| `Json`, `CategoryNames`, `CategoryBatches`, `Goals`, `GoalRuns`, `PetGoals`, `ItemGoals` | `apps/achievements/availability.py`, `source_identity.py`, `criteria.py`, `apps/pets`, `apps/rpg` |
| `Outbox`, `OutboxWorker` | `apps/accounts/file_cleanup.py` |
| `Decimals`, `GradeMarks`, `Saves`, `ChronicleStore` | `apps/chronicle` |
| `IsoWeeks`, `Chores`, `ChoreBoard`, `Creations` | `apps/chores`, `apps/creations`, `config/services.py` |
| `Options`, `Collections` | shared vocabulary |

Assumptions, all explicit in the model:

- One transaction is one step. A `nowait` lock conflict is an abort that changes nothing.
- Clock readings and local days never go backwards and may repeat.
- A hash is represented by what it digests, so distinct inputs have distinct hashes; sealed payloads are opaque.
  S256 challenges follow sections 4.1, 4.2 and 4.6 of RFC 7636.
- Payouts of a badge are an abstract action on the account that may request evaluations. Recognition of a first may
  fail for any badge; it is then rolled back.
- The catalog of items, pets and potions is fixed along a run of goals. Potion slugs that are given are unique. An
  available item can be acquired some way or other; what was accepted before, a redemption, a quest, a challenge, an
  expedition or an incubation, is delivered whether or not it is still available. A pet marked evolved has its mount.
- Rounding to binary64 is a function that is monotone, exact on whole numbers to 2^53 and otherwise off by at most
  2^-53; `round` is exact, with ties to even.
- Case folding, whitespace, numeric strings and the database's case-insensitive match are function parameters.

Findings about the code, proved as lemmas:

- A promise outlives the catalog: an item requested before it was retired is still delivered, so a hidden cosmetic set
  or potion shelf can yet be earned (`PromisedBowEarnsAHiddenSet`). `HiddenSetIsEarnedExactlyWhen` and
  `HiddenShelfIsFilledExactlyWhen` give the exact conditions. The shelf has two more ways: potions may lack a slug, and
  the checker compares slugs while the hiding rule compares rows (`HiddenShelfCanBeFull`); and an offered item that is
  not a potion may carry an unapproved one (`TonicFillsAHiddenShelf`).
- The rule for full cosmetic sets looks items up by slug and so sees one item without a slug at most; an accessory it
  overlooks can complete a hidden set (`OverlookedAccessoryEarnsAHiddenSet`, `HiddenFullSetIsEarnedExactlyWhen`).
- An egg accepted before its pair was retired still hatches, so a pet goal can be hidden and yet earned
  (`RetiredEggEarnsAHiddenGoal`); and the rule counts approved pets without asking for an egg, a potion or food on offer,
  so one can be shown and never earned (`EgglessPetIsShownInVain`, `UnfedPetIsShownInVain`).
  `PetGoalsAreShownRightlyExactlyWhen` gives the exact condition.
- A skill prerequisite with required level zero can need a second unlock pass. `OnePassIsEnoughExactlyWhen` gives the
  exact condition.
- Badge bonus XP requests no evaluation, so a badge it qualifies can stay unearned when the drain ends
  (`SilentPayoutLosesABadge`). The drain always leaves nothing qualified behind exactly when every badge that a payout
  qualifies is covered by a request of that payout, or comes later in the catalog and is selected whenever the paid
  one is: `AlwaysSaturatesExactlyWhen`.
- The available list and submission agree, except that a deactivated parent, were one to ask, would see a chore
  offered that submission refuses. `ListAgreesWithAdmission` states both.
- A creation's row says it was rewarded even if the XP grant failed; `FirstTwoLogsAreRewarded` counts the grants.
- A journal retry under the same save ID is recognised by its text and privacy alone; its date takes no part.

## Model

| member | source | states |
|---|---|---|
| GoogleInvariant.StepIsSound | apps/google_integration/oauth_exchange.py:98-293 | every event of the protocol, at any time, keeps: payload present exactly in pending or ready, ticket set exactly in ready, unique states, tickets and Google ids, at most 1000 retained rows and 10 live ones per client |
| GoogleInvariant.AccountStepIsSound | apps/google_integration/services.py:287-321 | linking, unlinking, saving, deleting, logging out and logging in keep the same invariant |
| GoogleInvariant.FlowStepIsSound | apps/google_integration/oauth_exchange.py:98-177 | starting, claiming, failing, finishing, reading, exchanging and pruning keep the same invariant |
| GoogleRuns.RunIsSound | apps/google_integration/oauth_exchange.py:129-177 | the invariant holds at every point of every history from the empty database |
| GoogleRuns.StepFollows | apps/google_integration/oauth_exchange.py:149-177 | one event leaves a flow's terms alone and moves its stage only forward; a new flow takes a fresh number |
| GoogleRuns.EveryChangeIsFenced | apps/accounts/models.py:89-105 | a change of password, activity, family, role, token or Google binding, by whatever operation, leaves a marker dated at that operation, and markers are never lowered while the account exists |
| GoogleRuns.PhaseNeverFalls | apps/google_integration/oauth_exchange.py:149-177 | along a history a flow never returns to an earlier stage, and an erased one never returns |
| GoogleRuns.ClaimedAtMostOnce | apps/google_integration/oauth_exchange.py:149-160 | two successful claims of one history concern different flows |
| GoogleRuns.RedeemedAtMostOnce | apps/google_integration/oauth_exchange.py:237-284 | two successful exchanges of one history concern different flows, however many requests read the same ready row |
| GoogleRuns.RefusedRequestsChangeNothing | apps/google_integration/oauth_exchange.py:243-267 | any number of requests in a row that meet a lock conflict, a wrong browser proof or a row no longer ready leave every row as it was |
| GoogleRuns.SuccessWasPermitted | apps/google_integration/oauth_exchange.py:180-234 | a success implies a ready row, its ticket, a verifier of its challenge, unchanged unfenced people, and for a login a bound, active, unfenced owner |
| GoogleRuns.RedemptionIsProven | apps/google_integration/oauth_exchange.py:243-246 | the same for every successful exchange of every history |
| GoogleRuns.RevokedFlowNeverRedeems | apps/google_integration/oauth_exchange.py:68-82 | after a sensitive change of a user, no flow open then, nor one started later at the same clock reading while the account stands, redeems if it names the user or resolves to the user at login, whatever is restored later |
| GoogleRuns.FencedFlowNeverRedeems | apps/google_integration/oauth_exchange.py:180-187 | the same from any marker dated now |
| GoogleRuns.OneOpenLinkSucceeds | apps/google_integration/oauth_exchange.py:206-217 | of the link flows open for an account when one succeeds, no other ever links it |
| GoogleRuns.LoginWasBoundThroughout | apps/google_integration/oauth_exchange.py:218-234 | a login for a user with a Google id means the two were bound at every instant since the flow was created |
| GoogleRuns.LostBindingStaysFenced | apps/google_integration/services.py:287-321 | a user unbound at some instant is fenced from that instant on or still unbound |
| GoogleRuns.TermsLast | apps/google_integration/oauth_exchange.py:141-145 | a surviving flow keeps everything it was created with |
| GoogleJourneys.SuccessMatchesItsStart | apps/google_integration/oauth_exchange.py:98-146 | a successful exchange is made by the very caller and token that started the flow, with the verifier of the challenge given then, within ten minutes, and logs in or links exactly what was asked |
| GoogleJourneys.SuccessMatchesItsFinish | apps/google_integration/oauth_exchange.py:169-177 | it uses the ticket and the Google identity stored by the callback, within 90 seconds of it |
| GoogleJourneys.ClaimMatchesItsStart | apps/google_integration/oauth_exchange.py:149-160 | the provider verifier handed to a callback is the one sealed by the start with that state |
| GoogleJourneys.SuccessTakesEffect | apps/google_integration/oauth_exchange.py:203-234 | a link binds its target to the proven identity and changes no other binding; a login hands out the bound user's own token |
| GoogleSuccess.EveryFlowIsKept | apps/google_integration/oauth_exchange.py:68-95 | in every history, whoever a flow names is still as it remembers, token included, or has a marker since the flow began |
| GoogleSuccess.ExchangeSucceedsExactlyWhen | apps/google_integration/oauth_exchange.py:180-284 | in every history an exchange succeeds exactly when its row stands unexpired, the caller is the one who started it, nobody named has a marker since, and the identity is free to link or its owner was bound before and is unmarked |
| GoogleSuccess.JourneySucceedsExactlyWhen | apps/google_integration/oauth_exchange.py:98-284 | a start, claim, finish, read and exchange of one flow that nothing else touches end in a login or a link exactly when the exchange comes in time from the caller who began, with nobody marked since the start and the identity free or bound before |
| GoogleStore.Store.StartFlow | apps/google_integration/oauth_exchange.py:98-146 | the method's state change is the specified start step, refusals included |
| GoogleStore.Store.ClaimCallback | apps/google_integration/oauth_exchange.py:149-160 | the method's state change and answer are the specified claim step |
| GoogleStore.Store.FailCallback | apps/google_integration/oauth_exchange.py:163-166 | likewise for a failed callback |
| GoogleStore.Store.FinishCallback | apps/google_integration/oauth_exchange.py:169-177 | likewise for a finished callback |
| GoogleStore.Store.ReadSnapshot | apps/google_integration/oauth_exchange.py:237-255 | the untransacted read accepts exactly a ready row whose challenge the verifier meets, and changes no row |
| GoogleStore.Store.ExchangeTicket | apps/google_integration/oauth_exchange.py:258-284 | the flow is spent whatever the redemption answers, and only a redemption that succeeds changes anything else |
| GoogleStore.Store.RedeemLoginRow | apps/google_integration/oauth_exchange.py:218-234 | the login half of a redemption |
| GoogleStore.Store.RedeemLinkRow | apps/google_integration/oauth_exchange.py:206-217 | the link half of a redemption |
| GoogleStore.Store.LinkOwner | apps/google_integration/services.py:287-307 | linking binds and fences in one step, or changes nothing |
| GoogleStore.Store.UnlinkOwner | apps/google_integration/services.py:309-321 | unlinking unbinds and fences in one step |
| GoogleStore.Store.Save | apps/accounts/models.py:76-107 | saving writes the chosen columns and fences exactly when a sensitive one changed |
| GoogleStore.Store.Logout | apps/google_integration/signals.py:65-84 | deleting the token fences its owner |
| GoogleStore.Store.PruneExpired | apps/google_integration/oauth_exchange.py:287-293 | erases an oldest batch of expired rows and nothing else |
| GoogleStore.Store.RemoveUser | apps/google_integration/models.py:10-92 | deleting an account takes its token, marker, binding and every flow that names it, and clears the linker of other bindings |
| GoogleStore.Store.LoginWithPassword | apps/projects/views.py:104-127 | a password login of an active user replaces the token and fences in one step |
| GoogleStore.Store.PerformEvent | apps/google_integration/oauth_exchange.py:98-293 | any event that may happen, performed by the methods above, is exactly the specified event and leaves the tables sound for the next one |
| ModelGraph.HasFamilyOwnerIsReachability | apps/accounts/lifecycle.py:175-188 | the search with a path-local seen set answers exactly whether User or Family is reachable along cascade, restrict or protect links, cycles included |
| ModelGraph.ReachableOwnerIsFound | apps/accounts/lifecycle.py:175-188 | a walk that avoids the seen set, with repeats or not, makes the search succeed |
| ModelGraph.FoundOwnerIsReachable | apps/accounts/lifecycle.py:175-188 | a successful search yields a walk to an owner |
| Ownership.Preflight.AssertFamily | apps/accounts/lifecycle.py:200-242 | returns normally only if all it added is expanded and of the family, and raises only if a foreign record is reachable; terminates on cyclic records |
| Ownership.Preflight.CheckRow | apps/accounts/lifecycle.py:277-281 | with the visited set shared across rows, a row passes exactly when everything reachable from it belongs, as a fresh search would find |
| Ownership.CheckGroups | apps/accounts/lifecycle.py:267-282 | the whole check passes exactly when every row in scope has only records of the family within reach |
| Ownership.SettledBelongs | apps/accounts/lifecycle.py:225-232 | a row already in a settled visited set needs no second search |
| Skills.LevelIsMonotone | apps/achievements/services.py:31-40 | more XP never means a lower level |
| Skills.LevelForXp | apps/achievements/services.py:31-40 | the upward scan returns the highest level whose threshold is reached |
| Skills.PassResult | apps/achievements/services.py:108-142 | closed form of an unlock pass over changing rows: exactly the rows created and the skills opened |
| Skills.OnePassIsEnoughExactlyWhen | apps/achievements/services.py:108-142 | a second pass changes nothing exactly when no locked skill waits for a row created after its own turn |
| Skills.PositiveLevelsNeedOnePass | apps/achievements/services.py:108-142 | with required levels of at least 1 one pass is a fixpoint |
| Skills.OrderOfPassIsIrrelevant | apps/achievements/services.py:113-142 | with required levels of at least 1 any order of the pass gives the same rows |
| Skills.ZeroLevelCanNeedTwoPasses | apps/achievements/services.py:113-140 | a concrete catalog with a required level of 0 where a second pass opens a skill |
| Awards.AwardKeepsTheBook | apps/achievements/services.py:42-61 | every award keeps: level is the level of the XP, a locked skill has no XP, an open gated skill has its prerequisites; and nothing falls |
| Awards.EveryReachableBookIsHonest | apps/achievements/services.py:42-61 | the same after any sequence of awards |
| XpSplit.SplitIsCloseToPool | apps/achievements/services.py:87-106 | with positive weights, and the ratio and the product rounded to floats, the split differs from the pool by at most half the number of tags |
| XpSplit.SingleTagTakesThePool | apps/achievements/services.py:100-106 | a single tag gets exactly the pool, float arithmetic included |
| XpSplit.LargerWeightNeverGetsLess | apps/achievements/services.py:103-104 | a larger weight never gets a smaller share, float arithmetic included |
| XpSplit.SharesArePositive | apps/achievements/services.py:105-106 | every share handed out is positive |
| XpSplit.RoundHalfEven | apps/achievements/services.py:104 | the result is a nearest integer, and the even one at a tie |
| Awards.AwardChangesOneSkill | apps/achievements/services.py:42-61 | an award adds its amount to its own skill if that is open, and to no other |
| Awards.Ledger.DistributeLogged | apps/achievements/services.py:444-463 | every share of the pool is awarded in turn, and the logged rows of each skill add up to the XP it truly gained; a locked skill contributes nothing |
| Awards.Ledger.EvaluateUnlocks | apps/achievements/services.py:108-142 | the loop performs the specified pass and returns exactly the newly opened skills |
| Awards.Ledger.AwardXpTo | apps/achievements/services.py:42-61 | the method performs the specified award |
| Awards.Ledger.AwardBadgeBonus | apps/achievements/services.py:647-664 | every open skill above level 0 gets the same part of the bonus, at least 1, before one unlock pass |
| Badges.CoalesceIsUnion | apps/achievements/services.py:481-490 | folding a nested request into the queue keeps one entry and covers exactly what was asked before or now |
| Badges.NewlyQualifiedIsAnnounced | apps/achievements/criteria.py:74-91 | under sound scopes and announcing payouts, a badge a payout qualifies is covered by a request of that payout |
| Badges.AnnouncedGainsAreSeen | apps/achievements/criteria.py:74-91 | sound scopes and announcing payouts are enough for every gain to be seen |
| Badges.RidesAlongExactlyWhen | apps/achievements/criteria.py:74-91 | a badge is selected by every request that selects another exactly when it declares no scopes or at least those of the other |
| Badges.SeenGainsSaturate | apps/achievements/services.py:492-501 | if every gain is seen, a drain that starts with nothing hidden ends with nothing qualified unearned |
| Badges.UnseenGainIsLost | apps/achievements/services.py:546-618 | for any gain that is not seen there are earned badges and a request whose drain ends with it qualified and unearned |
| Badges.AlwaysSaturatesExactlyWhen | apps/achievements/services.py:492-618 | the drain leaves no qualified badge unearned, from every start that hides none, exactly when every gain of a payout is seen |
| BadgePayouts.SilentPayoutLosesABadge | apps/achievements/services.py:590-664 | on real skill tables: a drain over every badge pays one, its bonus XP levels a skill, and ends with a qualified unearned badge |
| BadgeEvaluation.Evaluation.Ask | apps/achievements/services.py:481-490 | a nested call only changes the queue, which covers what it covered and the new request |
| BadgeEvaluation.Evaluation.Visit | apps/achievements/services.py:576-594 | a selected badge is checked again, marked and paid once, or skipped |
| BadgeEvaluation.Evaluation.Pass | apps/achievements/services.py:547-618 | a pass is the left-to-right fold over the unearned relevant badges, selected when it begins |
| BadgeEvaluation.Evaluation.Drain | apps/achievements/services.py:492-501 | ends as the specified drain; returns exactly the newly earned badges, each once, in at most one pass more than there are; every nested request is answered by a later pass |
| BadgeEvaluation.Evaluation.EvaluateBadges | apps/achievements/services.py:467-511 | the drain followed by recognition, which may fail, ends, pays each badge once, saves the first exactly when recognised, and stays saturated if gains are seen |
| BadgeEvaluation.Evaluation.RecordFirstLegendary | apps/chronicle/services.py:203-248 | a saved slug is not saved again, so recognition and evaluation cannot call each other forever |
| BadgeEvaluation.Evaluation.RecogniseAll | apps/achievements/services.py:506-510 | the first-legendary slug is saved exactly when a legendary badge was earned whose recognition did not fail |
| CategoryNames.BatchAgreesWithSingle | apps/achievements/availability.py:137-173 | for every catalog and key the batched verdict is the single-name verdict, the 1001-source bound included |
| CategoryNames.VerdictIgnoresOrder | apps/achievements/availability.py:162-172 | the verdict does not depend on the order of the rows |
| CategoryNames.RetainedSetsAgree | apps/achievements/source_identity.py:52-63 | the retained targets counted from annotated rows are those the single resolver counts |
| CategoryBatches.Scatter | apps/achievements/availability.py:161-163 | rows are scattered by selector index, in order |
| CategoryBatches.UnionAll | apps/achievements/availability.py:136-162 | the compound query returns every selector's rows, each tagged with its index |
| CategoryBatches.Reader.NewKeys | apps/achievements/availability.py:126-129 | exactly the keys of the badges that have no verdict yet, without repeats |
| CategoryBatches.Reader.PrepareNamedCategories | apps/achievements/availability.py:114-174 | chunking, scatter and duplicate removal leave old verdicts alone and give every new key its single-name verdict |
| CategoryBatches.Reader.NamedCategoryGoalIsReachable | apps/achievements/availability.py:176-194 | batched or not, cached or not, the answer is the single-name answer |
| Goals.IsAvailable | apps/achievements/availability.py:196-226 | the read through the shared caches gives the availability of the badge |
| GoalRuns.EveryReachableUserIsWithin | apps/achievements/availability.py:196-226 | after any awards, projects, incubations, meals, acquisitions, deliveries, uses and changes of outfit, pets come from what was owned, incubating or had its egg and potion on offer, and items from what was held, offered or promised |
| GoalRuns.EveryReachableUserIsHonest | apps/achievements/availability.py:17-48 | along the same runs levels stay the levels of their XP |
| ItemGoals.HiddenTrainingIsNeverEarned | apps/achievements/availability.py:196-204 | no run earns a hidden level or category goal |
| PetGoals.PetGoalIsShownExactlyWhenEarnable | apps/achievements/availability.py:205-213 | where eggs, potions and, for mounts, food are on offer a shown hatching, species or mount goal is earned by some run; where no retired pair incubates no hidden one is |
| PetGoals.PetGoalIsEarnableExactlyWhen | apps/pets/services.py:198-331 | such a goal is earned by some run exactly when its count fits what is owned, incubating, or has its egg and potion on offer; for mounts, can be raised too, given that no pet lives on food that cannot be had again |
| PetGoals.PetGoalsAreShownRightlyExactlyWhen | apps/achievements/availability.py:205-213 | the goals of one such kind are shown exactly when earnable, whatever they ask, exactly when the catalog's count equals what can be reached |
| PetGoals.RetiredEggEarnsAHiddenGoal | apps/pets/services.py:327-331 | an accepted egg whose pair was retired: a hidden goal that hatching earns |
| PetGoals.EgglessPetIsShownInVain | apps/rpg/catalog_support.py:116-138 | an approved pet whose egg no item is: a shown goal that no run earns |
| PetGoals.UnfedPetIsShownInVain | apps/achievements/availability.py:205-213 | a pet that nothing feeds: a shown mount goal that no run earns |
| ItemGoals.CosmeticSetIsEarnableExactlyWhen | apps/achievements/availability.py:219-225 | some run earns a cosmetic set exactly when it names only slugs, each of an item held, offered or promised |
| ItemGoals.FullSetIsEarnableExactlyWhen | apps/achievements/criteria.py:670-689 | some run fills all four slots exactly when each is filled or has an offered item that fits it |
| ItemGoals.HiddenFullSetIsEarnedExactlyWhen | apps/achievements/availability.py:85-88 | a hidden full set is earned by some run exactly when an offered accessory that the lookup by slug overlooks completes it |
| ItemGoals.OverlookedAccessoryEarnsAHiddenSet | apps/achievements/availability.py:217-218 | a concrete catalog of two items without slugs where that happens |
| ItemGoals.ShownLevelIsEarnable | apps/achievements/criteria.py:196-200 | a shown level goal that asks for one skill is met by training any skill open by default |
| ItemGoals.HiddenLevelIsNotReached | apps/achievements/criteria.py:196-223 | an unusable or too high level is never met by the level checkers |
| ItemGoals.TiedCategoryIsNotReached | apps/achievements/criteria.py:159-178 | a tied category name is never met by the category checkers |
| ItemGoals.HiddenSetIsEarnedExactlyWhen | apps/achievements/availability.py:219-225 | a hidden cosmetic set is earned by some run exactly when every item it misses is promised |
| ItemGoals.PromisedBowEarnsAHiddenSet | apps/rewards/services.py:356-371 | a concrete retired item under a pending redemption: a hidden goal that the delivery earns |
| ItemGoals.ShelfIsFilledExactlyWhen | apps/achievements/criteria.py:590-608 | hidden or not, some run fills the potion shelf exactly when there are potions, every one with a slug is owned or carried by an offered or promised item, and one without a slug is, if there are any |
| ItemGoals.HiddenShelfIsFilledExactlyWhen | apps/achievements/criteria.py:590-608 | a hidden shelf can be filled exactly when each potion that hides it is carried by an offered or promised item or stood in for by another without a slug, and all others are obtainable |
| ItemGoals.HiddenShelfIsNeverFilled | apps/achievements/availability.py:214-216 | where offered and promised items carry only approved potions and at most one potion lacks a slug, no run fills a hidden shelf |
| ItemGoals.HiddenShelfCanBeFull | apps/achievements/availability.py:214-216 | a concrete catalog and bag where the hidden shelf goal is already met |
| ItemGoals.TonicFillsAHiddenShelf | apps/rpg/catalog_support.py:234-252 | a concrete catalog where getting an offered or promised item fills a hidden shelf |
| Outbox.EveryRunIsSafe | apps/accounts/file_cleanup.py:33-114 | over every run of creations, deletions, failures and crashes a referenced file is stored, and a stored file is referenced or pending |
| Outbox.StepIsSafe | apps/accounts/file_cleanup.py:33-114 | every single event keeps that |
| Outbox.OnlyUnreferencedFilesLeave | apps/accounts/file_cleanup.py:97-109 | a file leaves storage only through an attempt on its own due job when no row refers to it; after a crash the job remains |
| Outbox.QueueAllKeeps | apps/accounts/file_cleanup.py:33-37 | queueing a row's files leaves jobs alone, adds none twice, and leaves every named file pending |
| Outbox.DelayNeverShrinks | apps/accounts/file_cleanup.py:110 | the delay is nondecreasing in the attempts and between 5 and 1440 minutes |
| Outbox.DelayDoubles | apps/accounts/file_cleanup.py:110 | the first delay is five minutes and each of the next eight is twice the one before |
| Outbox.DelayIsFullExactlyFromTheTenthAttempt | apps/accounts/file_cleanup.py:110 | the delay is a full day exactly from the tenth attempt on |
| Outbox.AttemptsAreSpaced | apps/accounts/file_cleanup.py:95-114 | of two tries of a job in any run, the first of which postponed it, the second comes at least the first one's delay later; a try that crashed after deleting the file postpones nothing |
| Outbox.JobsOnlyMoveLater | apps/accounts/file_cleanup.py:95-114 | while a job lives its attempts and its next attempt time never go down |
| OutboxWorker.Worker.Process | apps/accounts/file_cleanup.py:62-115 | a batch is exactly the attempts on its unlocked due jobs, in queue order, up to the deadline or a crash; its counts say how many jobs were discarded, refused by storage and still referenced; a bad limit or an open transaction changes nothing |
| OutboxWorker.Worker.DueJobs | apps/accounts/file_cleanup.py:77-80 | the first due jobs by retry time and key, all of them if there are fewer than the limit |
| OutboxWorker.Worker.AttemptJob | apps/accounts/file_cleanup.py:86-114 | one job's transaction is the specified attempt |
| OutboxWorker.Worker.RemoveRow | apps/accounts/file_cleanup.py:33-37 | deleting a row queues each of its files once |
| Decimals.SpelledAlikeExactlyWhenEqual | apps/chronicle/grade_serializers.py:18-24 | two decimals have one canonical spelling exactly when they are the same number |
| Decimals.SpellingKeepsValue | apps/chronicle/grade_serializers.py:18-24 | the canonical spelling reads back as the same number |
| Decimals.ShiftKeepsSpelling | apps/chronicle/grade_serializers.py:23-24 | writing one more zero of the same number does not change its spelling |
| GradeMarks.ResultsAlikeExactlyWhen | apps/chronicle/grade_serializers.py:27-48 | two accepted results have one stored form exactly when they are the same result, however their numbers are spelled |
| GradeMarks.StoredMarkReadsBack | apps/chronicle/grade_serializers.py:27-48 | the stored mark holds each submitted number in its own place, unrounded and in range |
| GradeMarks.StoredLinesReadBack | apps/chronicle/grade_serializers.py:83-112 | every stored report line is its submitted line |
| GradeMarks.RespellingIsAcceptedExactlyWhen | apps/chronicle/grade_serializers.py:27-48 | a respelling of an accepted result is accepted exactly when its own digits fit the fields |
| GradeMarks.UnmentionedMarkStays | apps/chronicle/grade_serializers.py:149-158 | a correction that mentions no mark field keeps the stored mark, however it was spelled at first |
| GradeMarks.OneNumberIsCorrected | apps/chronicle/grade_serializers.py:149-158 | correcting the score of a points mark keeps the possible points exactly |
| Saves.EveryRunIsSound | apps/chronicle/grade_services.py:101-114 | over every run a save ID names one entry, a day has one journal, a save-day rewards at most one grade, and writing coins are the flat amount times the days paid |
| Saves.StepIsSound | apps/chronicle/grade_services.py:58-139 | every request keeps that |
| Saves.GradeRetry | apps/chronicle/grade_services.py:49-80 | a later save under a used ID changes nothing: it returns the original entry exactly when it is the same submission, and otherwise conflicts, whatever was corrected meanwhile |
| Saves.ExactGradeRetry | apps/chronicle/grade_services.py:71-80 | an exact retry at any later time, across midnight with an omitted date and with respelled numbers, returns the original entry exactly when its digits fit the fields, and is otherwise invalid; it changes nothing |
| Saves.JournalRetry | apps/chronicle/services.py:53-73 | the same for a journal save, where text and privacy decide and the date takes no part |
| Saves.GradeIdRefusesJournals | apps/chronicle/services.py:68-71 | a save ID used by a grade is refused to a journal from then on |
| Saves.JournalIdRefusesGrades | apps/chronicle/grade_services.py:52-53 | and one used by a journal is refused to a grade |
| Saves.RunKeepsSaves | apps/chronicle/grade_services.py:129-138 | no correction or other request changes an entry's kind, save ID, fingerprint, request date or reward |
| Saves.TitleShows | apps/chronicle/services.py:159-178 | a journal's title is never empty nor longer than the field, and is a prefix of the given one if there is one |
| ChronicleStore.Chronicle.WriteGrade | apps/chronicle/grade_services.py:61-114 | the method's new rows and answer are the specified grade save |
| ChronicleStore.Chronicle.UpdateGrade | apps/chronicle/grade_services.py:118-139 | likewise for a correction, partial fields merged |
| ChronicleStore.Chronicle.CorrectedResult | apps/chronicle/grade_serializers.py:129-158 | the corrected result is the specified merge: a report stays a report and an individual grade one |
| ChronicleStore.Chronicle.WriteJournal | apps/chronicle/services.py:339-436 | likewise for a journal save |
| ChronicleStore.Chronicle.UpdateJournal | apps/chronicle/services.py:440-477 | likewise for a journal edit: text only on its own day |
| ChronicleStore.Chronicle.BumpDailyCounter | config/services.py:5-25 | returns the count before the call and stores one more |
| IsoWeeks.ParityFlipsExceptAfterWeek53 | apps/chores/services.py:35-37 | the parity of the week number changes from week to week except exactly when leaving a week 53 |
| IsoWeeks.NextWeek | apps/chores/services.py:35-36 | the next week has the next number, or is week 1 after week 52 or 53 |
| IsoWeeks.FourthOfJanuaryIsInWeekOne | apps/chores/services.py:35-36 | week 1 is the week of 4 January, as the standard has it |
| IsoWeeks.LongYearsExactlyWhen | apps/chores/services.py:35-36 | a year has a week 53 exactly when it begins on a Thursday, or is leap and begins on a Wednesday |
| Chores.OneWeekOnePeriod | apps/chores/services.py:26-44 | within one ISO week a weekly chore has one period date and any chore one verdict |
| Chores.AlternatingFlipsExceptAfterWeek53 | apps/chores/services.py:26-37 | an alternating chore changes from week to week except exactly when leaving a week 53 |
| Chores.ListAgreesWithAdmission | apps/chores/services.py:46-168 | for a child, or a parent in their own space, the list offers a chore exactly when submission accepts it, given that a parent is active |
| Chores.EveryRunIsSound | apps/chores/services.py:233-381 | over every run by callers with stale copies a period has one live completion, no completion is paid twice, and what was paid is its frozen reward |
| Chores.MoneyIsWhatWasApproved | apps/chores/services.py:233-298 | the money paid over a run is the sum of the frozen rewards of the completions ever approved |
| Chores.ApprovalIsFinal | apps/chores/views.py:350-384 | an approved completion is never withdrawn, rejected or repriced while its chore exists |
| Chores.TermsAreFrozen | apps/chores/services.py:183-196 | while it exists a completion keeps its chore, user, day and reward, and a deleted one never returns |
| Chores.EditsDoNotReprice | apps/chores/services.py:194-298 | an approval pays the submitter the reward the chore had at submission, however the chore is edited meanwhile |
| Chores.OwnParentChoreNeverPays | apps/chores/services.py:194-219 | a parent's own chore is approved at once and pays no money in any run after |
| Chores.DecisionFreesThePeriod | apps/chores/services.py:338-359 | after a rejection or a withdrawal the same submission is accepted again at once |
| ChoreBoard.Rows.GetAvailableChores | apps/chores/services.py:46-122 | the list holds exactly the listed chores, each with the right done flag |
| ChoreBoard.Rows.List | apps/chores/views.py:197-239 | every availability flag is the specified one, and no offered chore is missing |
| ChoreBoard.Rows.SubmitCompletion | apps/chores/services.py:126-231 | the method's new rows and answer are the specified submission, first objection first |
| ChoreBoard.Rows.ApproveCompletion | apps/chores/services.py:233-298 | the stored row decides, not the caller's copy |
| ChoreBoard.Rows.RejectCompletion | apps/chores/services.py:338-365 | likewise for a rejection |
| ChoreBoard.Rows.WithdrawCompletion | apps/chores/views.py:350-384 | likewise for a withdrawal by its owner |
| Creations.EveryRunIsSound | apps/creations/services.py:137-287 | over every run no more logs of a user and day are rewarded than there were, nor more than two, and a creation has a bonus exactly once if approved, else none |
| Creations.FirstTwoLogsAreRewarded | apps/creations/services.py:137-199 | the logs rewarded on a day are those of its first two whose grant succeeded, whatever is deleted |
| Creations.UnfailingGrantsRewardTwo | apps/creations/services.py:140-158 | when no grant fails exactly the first two logs of a day are rewarded |
| Creations.RewardsAreCapped | apps/creations/services.py:140-158 | at most two rewarded logs per user and day, deletions included, and at most one bonus per creation |
| Creations.ApprovalIsFinal | apps/creations/services.py:230-243 | an approved creation keeps its status and bonus until it is deleted |
| Creations.RoundsOfAskingRestore | apps/creations/services.py:238-245 | any number of rounds of rejecting or withdrawing and asking again lead back to the same pending request and the same book |
| Creations.ApprovedIgnoresEverything | apps/creations/services.py:284-286 | after an approval no sequence of stale requests, decisions or withdrawals changes anything |
| Creations.Sketchbook.LogCreation | apps/creations/services.py:109-166 | the method's new rows are the specified log step, a failed grant included |
| Creations.Sketchbook.ApproveBonus | apps/creations/services.py:267-351 | likewise for an approval; a failed grant leaves the request pending |
| Creations.Sketchbook.SubmitForBonus | apps/creations/services.py:237-245 | likewise for a bonus request |
| Creations.Sketchbook.WithdrawBonusRequest | apps/creations/services.py:218-235 | likewise for its withdrawal |
| Creations.Sketchbook.RejectBonus | apps/creations/services.py:365-382 | likewise for a rejection |

## Left out

- Chores.ListAgreesWithAdmission: requests by other roles outside their personal space are not listed this way and are not covered.
- ItemGoals.HiddenTrainingIsNeverEarned: goals of the kinds the rule never hides are not modelled.
- GoalRuns.EveryReachableUserIsWithin: prices, waiting times and daily growth limits are not modelled, a feast feeds one pet at a time, and accounts are taken after signup and its starter cover; catalog retirement commands and developer tools are no steps.
- PetGoals.PetGoalIsEarnableExactlyWhen: for mounts the converse is not stated where a pet can be fed only from a held or promised stock that cannot be renewed, which would need the best use of every portion.
- XpSplit.SplitIsCloseToPool: pools above 2^50 XP and weights that add up to more than 2^53 are not covered; the fields hold 32-bit integers.
- BadgeEvaluation.Evaluation.EvaluateBadges: a payout that raises rolls the whole evaluation back; that abort, which changes nothing, is not a step of the model.
- ChronicleStore.Chronicle.WriteJournal: the uniqueness-violation branches, which the user row lock makes unreachable, are not modelled.
- Saves.JournalRetry: the journal's XP and game loop are abstract; a journal's reward is only marked as made.
- OutboxWorker.Worker.Process: within one batch no other worker runs between two jobs; interleavings are covered by runs of single attempts.
- The Google HTTP exchange, calendar, drive and encryption code: their results are inputs of the steps.
- Real database locking, savepoints and isolation: steps are atomic.
- The deletion collector's own cascade computation and blob replacement on edit.
- Bulk queryset updates and admin edits that bypass the saving methods.
- Coin boosts, drops, inventory side effects, notifications and the game loop.
- Files saved to storage by a transaction that is then rolled back, and rows that point at a file never stored.
- Skill tags, timing snapshots, due dates and activity logs of chores and creations.
- Habit taps, ledger sums, redirects and the views not cited above.
