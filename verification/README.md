# Guardian automation: a verified model

Guardian decides, executes and records automated security actions. This project models the
parts of it where a mistake would matter most and proves what they promise, in Dafny.

- **Policies.** `Policies.dfy` evaluates a request against versioned policies as the service
  does: filter the active ones, collect matching rules, let DENY beat the rest, order by rule
  priority, scope specificity, policy priority and ids. `PolicyLaws.dfy` shows that this is a
  declarative specification in disguise, `Precedence.dfy` says whom it prefers in terms of
  priorities, scopes and ids. `Conflicts.dfy` is the independent static analyser;
  `ConflictLaws.dfy` relates the two: overlap is exact, the predicted winner is the winner,
  a fully shadowed rule is dead code, each with the exact condition under which it holds;
  `Coverage.dfy` says when full coverage is found and what a finding tells.
- **Authority.** `Gates.dfy` is the fixed order of twelve gates, each asked in its own moment,
  `GateLaws.dfy` what passing them vouches for; `Grants.dfy` the bounded pre-authorization
  grants, `Approvals.dfy` the approval lifecycle.
- **The safety envelope.** `Envelope.dfy` is a protocol: any number of calls with program
  counters over shared tables, any interleaving, a crash or a database error anywhere.
  `EnvelopeLaws.dfy` has its invariant, `EnvelopeSafety.dfy` what follows for every run,
  `EnvelopeRuns.dfy` one call as the code runs it among all others (each commit proved to be a
  step of the protocol), `EnvelopeAuthority.dfy` the same protocol with the real gates,
  `ExecutionIdentity.dfy` with the execution ids that requests really get.
- **Frequency caps.** `Caps.dfy` says for any history of runs what cooldown, hourly cap and
  grant cap are worth although they are checked before the row is there. `CapRuns.dfy` feeds
  the rows of a protocol run back into its own gates and derives such a history from it.
  `Turns.dfy` carries the caps over to the executed actions of a run; `Overlaps.dfy` and
  `Overshoots.dfy` have the runs in which overlapping calls go beyond them, as far as they can.
- **Smaller cores.** The API rate limiter, base64url, claims and tokens, the canonical JSON
  behind checksums and execution identity, leakage-free partitions and sequences, the model
  registry, and version ordering.

`dafny verify dfyconfig.toml` checks everything.

## What turned out not to hold

The model follows the code in each of these; the lemmas named show the failing case and the
exact condition.

- The analyser lets every DENY prevail; a DENY rule inside a PREPARE_ONLY policy does not
  block evaluation. The analyser agrees with the evaluator exactly when no two overlapping
  rules of active policies are `ConflictLaws.Contested` (`AnalyserAgreesExactly`); a finding's
  prediction and the deletion of its fully shadowed rule are right exactly when it is not
  `Misjudged` (`PredictionExactly`, `DeadRuleExactly`). The smallest example is
  `PrepareOnlyDenyIsPredicted` with `PrepareOnlyDenyIsIgnored`. The analyser's module text
  calls prepare-mode policies dormant; its code treats them as active, and the model follows
  the code.
- Prepare-only policies are said never to authorize execution (policy_v5.py:593). The envelope
  executes under one exactly when the eleven gates other than the policy gate hold
  (`PrepareOnlyExecutesExactly`); `PrepareOnlyPolicyExecutes` is a policy without any rule
  under which an approved action runs.
- The envelope evaluates only the policy that the request names. That decides as all policies
  together would exactly when its rules outrank whatever competes from the others
  (`NamedPolicyExactly`), and it lets a request through that they would deny exactly when only
  other policies deny it (`DeniedElsewhereExactly`).
- The envelope's module text says that a crash never leaves an apparent success without an
  audit. Success is committed before the audit. A succeeded row has no audit exactly while its
  owner is between the two commits, when the owner crashed there, or when the audit commit and
  the commit of the downgrade both failed (`UnauditedSuccessExactly`). `CrashBeforeAudit` and
  `DowngradeFails` are the two failing runs; in the second one the call that ran the action
  itself returns success, and its success is audited exactly when the downgrade commit did not
  fail (`OwnReplyIsCommitted`). A replay can be told "succeeded" in the window
  (`ReplayBeforeAudit`).
- Frequency caps are checked before the row is inserted. A run keeps its cooldown after all
  earlier ones exactly when it keeps it after those committed between its check and its own
  commit (`CooldownKeptExactly`). An hourly cap is exceeded by no more than the runs of that key
  and hour which a check missed (`HourlyCapOvershoot`, `GrantCapOvershoot`), so it can only fail
  in the hour of a run whose check missed one (`HourlyCapExactly`, `GrantCapExactly`); the bound
  is sharp for every cap and every number of missed runs (`OvershootIsReached`). Any number of
  authorised calls can overlap so that all of them execute (`OverlappingCallsAllExecute`);
  `TwoCallsBreakTheirCaps` is a run of two calls under a rule that allows one execution an hour.
  When calls of one policy take turns between check and commit, the caps hold of the executed
  actions (`TurnsKeepCooldown`, `TurnsKeepHourlyCap`, `TurnsKeepGrantCap`).
- The analyser's coverage test is said to be true when every target of one scope is in the
  other. It finds that exactly, for all requests, as long as no address block of the inner
  scope meets more than one entry of the outer one (`Unspread` in `CoverageExactly`,
  `FullCoverageExactly`); a block that two blocks cover only together is missed
  (`HalvesAreMissed`). It never claims coverage wrongly (`SubsetIsSound`).
- Approval is waived only for winners of PREPARE_ONLY policies (`ApprovalWaivedExactly`).
- Canonical text is injective on encodable text only: a pair of surrogates prints like the
  character it stands for (`SurrogatesPrintLikeTheirPoint`).
- A grant's own cooldown is stored and never consulted; approvals match decision, target and
  action type but not the action's name. The model does the same and claims no more.

## Model

| member | source | states |
|---|---|---|
| Scopes.ValidateScope | guardian/automation/policy_v5.py:286-330 | accepts exactly the acceptable scopes and returns the scope without its empty dimensions |
| Scopes.ValidEntryExactly | guardian/automation/policy_v5.py:299-327 | an entry is accepted exactly when it has 1 to 512 characters, can be parsed in an address dimension, and holds no parent step in a path dimension |
| Scopes.MatchesExactly | guardian/automation/policy_v5.py:448-481 | a value matches a list exactly when some entry fits: paths by their beginning, addresses by number, everything else as a whole, case ignored |
| Scopes.NormalizedMatchesSame | guardian/automation/policy_v5.py:328-330 | normalising a scope changes nothing about which targets it matches |
| Scopes.ScopeSpecificity | guardian/automation/policy_v5.py:431-445 | the accumulated score is the sum over the scope's dimensions |
| Addresses.InNetworkIsInterval | guardian/automation/policy_v5.py:448-464 | masked comparison with a CIDR block is membership in an aligned interval |
| Addresses.OverlapIsCommonAddress | guardian/automation/conflicts.py:119-162 | the end-point test of two IP entries succeeds exactly when some address matches both |
| Addresses.CoversIsSubset | guardian/automation/conflicts.py:261-285 | a covered entry matches no address that its cover does not match |
| Addresses.SubnetIsInclusion | guardian/automation/conflicts.py:261-285 | between two blocks the cover test is exactly inclusion of their addresses |
| Policies.ValidateRule | guardian/automation/policy_v5.py:333-375 | accepts exactly the valid rules, ids with a trailing newline among them, and returns them with a normalised scope |
| Policies.ValidIdExactly | guardian/automation/policy_v5.py:101-102 | an id is accepted exactly when it is 1 to 128 letters, digits, underscores or hyphens, with at most one newline after them |
| Policies.ValidRuleExactly | guardian/automation/policy_v5.py:333-375 | each field of a valid rule in its range, the action types and names registered or wildcards |
| Policies.ValidatePolicy | guardian/automation/policy_v5.py:378-401 | accepts exactly the valid policies, name and description checked and rule ids not repeating, and leaves each rule valid and normalised |
| Policies.PrecedesIsTotal | guardian/automation/policy_v5.py:535-540 | the sort key orders all candidates totally |
| Policies.EvaluatePolicies | guardian/automation/policy_v5.py:543-716 | the loops, the two lists and the sort compute the evaluation function; malformed requests are rejected |
| PolicyLaws.EvaluateMeetsSpec | guardian/automation/policy_v5.py:580-716 | without a competing rule approval is required, otherwise the declarative winner is reported |
| PolicyLaws.WinnerIsUnique | guardian/automation/policy_v5.py:535-540 | with distinct ids there is at most one declarative winner |
| PolicyLaws.WinnerIsReported | guardian/automation/policy_v5.py:584-694 | whoever wins by the specification is what evaluation reports |
| PolicyLaws.DeniedExactly | guardian/automation/policy_v5.py:584-651 | DENY exactly when a DENY rule of an active policy that is not prepare-only matches |
| PolicyLaws.ApprovalIsAlwaysAsked | guardian/automation/policy_v5.py:615-694 | evaluation never executes, ALLOW always comes with approval, and only PREPARE comes without |
| PolicyLaws.ApprovalWaivedExactly | guardian/automation/policy_v5.py:615-694 | approval is waived exactly when the declarative winner is a prepare-only rule that waives it |
| PolicyLaws.PolicyOrderIsIrrelevant | guardian/automation/policy_v5.py:580-583 | the evaluation, counts included, does not depend on the order of policies |
| PolicyLaws.RuleOrderIsIrrelevant | guardian/automation/policy_v5.py:584-614 | nor on the order of the rules inside a policy |
| PolicyLaws.WinnerRanksFirst | guardian/automation/policy_v5.py:615-651 | the evaluator's winner is the candidate that ranks before all other competitors |
| PolicyLaws.NamedPolicyExactly | guardian/automation/envelope.py:413 | evaluating the named policy alone decides as all policies would exactly when its rules outrank whatever competes from the others |
| PolicyLaws.DeniedElsewhereExactly | guardian/automation/envelope.py:413 | a request that all policies together deny passes alone exactly when only other policies deny it |
| Precedence.NarrowerScoresHigher | guardian/automation/policy_v5.py:431-445 | a scope that constrains whatever another does with lists no longer, and more or with a shorter short list, scores higher |
| Precedence.ScoreExactly | guardian/automation/policy_v5.py:431-445 | an empty scope scores 0; a further list of n entries adds 20 - n below ten entries and 10 from there on |
| Precedence.OutscoringComesFirst | guardian/automation/policy_v5.py:535-540 | higher rule priority goes first, then the narrower scope, then at equal scopes the higher policy priority, the smaller policy id and the smaller rule id |
| Precedence.OutscoredIsNotReported | guardian/automation/policy_v5.py:604-694 | a matching rule that another one of its class outscores is never reported |
| Precedence.DenyIsReported | guardian/automation/policy_v5.py:615-651 | nor is any other rule while a DENY rule of a policy that is not prepare-only matches |
| Precedence.BestIsReported | guardian/automation/policy_v5.py:604-694 | the rule that outscores all others of the deciding class is reported, with its approval mode and score and the decision it stands for |
| Precedence.WinnerDecides | guardian/automation/policy_v5.py:654-671 | the decision, and whether approval is required, in terms of the winning rule and the mode of its policy |
| Precedence.OneMoreRule | guardian/automation/policy_v5.py:584-606 | a further rule of an active policy counts as a candidate exactly when it matches |
| Conflicts.OverlappingScopeKeys | guardian/automation/conflicts.py:205-223 | the loop finds exactly the dimensions where both scopes constrain and overlap, in order |
| Conflicts.AnalyzePolicyConflicts | guardian/automation/conflicts.py:391-583 | flattening, the pairwise loops and the sort compute one finding for each overlapping pair |
| Coverage.CoverageExactly | guardian/automation/conflicts.py:331-349 | the coverage test of two validated rules succeeds exactly when every valid request that the inner matches is matched by the outer, unless an address block is spread over several outer entries |
| Coverage.HalvesAreMissed | guardian/automation/conflicts.py:261-288 | every block of more than one address and its two halves, which cover it together and are not found to |
| Coverage.FullCoverageExactly | guardian/automation/conflicts.py:457-464 | full coverage and ambiguity of a finding, in terms of requests |
| Coverage.FindingTells | guardian/automation/conflicts.py:415-464 | the rest of a finding: runtime impact, conflict, kind, impact, whom it names as winner, the common risks and dimensions |
| Coverage.FindingIsNamed | guardian/automation/conflicts.py:376-386 | a finding names the earlier rule first, by policy id and rule id, and its id is taken of the two names in that order |
| Coverage.FindingsAscend | guardian/automation/conflicts.py:576-583 | findings come in the order of their ids |
| Coverage.ScopeKeysAscend | guardian/automation/conflicts.py:205-223 | the dimensions that a finding names come in the order of their names |
| ConflictLaws.DimensionOverlapIsExact | guardian/automation/conflicts.py:91-162 | for each of the three matchers, overlap means exactly that some value matches both lists |
| ConflictLaws.ScopeOverlapIsExact | guardian/automation/conflicts.py:177-202 | two scopes overlap exactly when some target is in both |
| ConflictLaws.OverlapIsExact | guardian/automation/conflicts.py:226-242 | two validated rules overlap exactly when some valid request matches both |
| ConflictLaws.SubsetIsSound | guardian/automation/conflicts.py:331-349 | full coverage is never claimed wrongly |
| ConflictLaws.PairIsReported | guardian/automation/conflicts.py:404-434 | every overlapping pair of rules has a finding |
| ConflictLaws.ReportedIsPair | guardian/automation/conflicts.py:404-464 | every finding is about two rules of the policies that overlap, and says what the pair determines |
| ConflictLaws.PairsAreDistinct | guardian/automation/conflicts.py:404-420 | no finding compares a rule with itself |
| ConflictLaws.PredictionExactly | guardian/automation/conflicts.py:430-440 | the predicted winner of two active rules ranks first exactly when the pair is not misjudged |
| ConflictLaws.AgreesUnlessContested | guardian/automation/conflicts.py:354-464 | without a contested pair every real competition is reported with its real winner, whatever the parsers and rules |
| ConflictLaws.AnalyserAgreesExactly | guardian/automation/conflicts.py:354-464 | every real competition is reported with its real winner exactly when no two overlapping rules of active policies are contested |
| ConflictLaws.AgreesWithoutPrepareOnlyDeny | guardian/automation/conflicts.py:434-456 | without DENY rules in prepare-only policies, every loser of an evaluation has a finding with the real winner |
| ConflictLaws.BeatenRuleIsDead | guardian/automation/policy_v5.py:584-694 | a rule that is outranked wherever it matches can be deleted without changing any decision |
| ConflictLaws.DeadRuleIsHarmless | guardian/automation/conflicts.py:415-464 | a fully shadowed rule of a runtime finding that is not misjudged can be deleted from any policies, for every request |
| ConflictLaws.DeadRuleExactly | guardian/automation/conflicts.py:415-464 | deleting the fully shadowed rule of a runtime finding is harmless for all policies and requests exactly when the finding is not misjudged |
| ConflictLaws.PrepareOnlyDenyIsPredicted | guardian/automation/conflicts.py:430-440 | two rules of which the analyser reports the prepare-only DENY as the overriding one |
| ConflictLaws.PrepareOnlyDenyIsIgnored | guardian/automation/policy_v5.py:592-602 | of the same two rules evaluation follows the ALLOW |
| Grants.ValidateAllowedActions | guardian/automation/preauth.py:74-108 | accepts exactly nonempty lists of distinct registered actions without wildcards |
| Grants.GrantStore.ActivateGrant | guardian/automation/preauth_store.py:74-157 | succeeds exactly for valid bounds on a policy that supports them, and then stores them at the current version |
| Grants.GrantStore.RevokeGrant | guardian/automation/preauth_store.py:166-193 | deactivates an existing grant and changes nothing else |
| Grants.CoversRequest | guardian/automation/preauth.py:186-240 | a grant covers exactly unexpired, allowed actions within its risk, target scope and agent scope; an empty target scope covers nothing |
| Grants.GrantStore.CheckGrantForRequest | guardian/automation/preauth_store.py:196-256 | authorises exactly an active grant at the current and expected version that has not expired, whose actions, risk, target scope and agent scope hold the request, and whose hour has room |
| GrantLaws.RowTellsLatest | guardian/automation/preauth_store.py:88-193 | after any history the stored row tells the latest effective operation |
| GrantLaws.AuthorizedExactly | guardian/automation/preauth_store.py:217-256 | a request is authorised exactly when the latest effective operation was an activation at the current version, each of whose bounds holds it, and the hour has room |
| GrantLaws.QuietKeeps | guardian/automation/preauth_store.py:166-193 | without a new activation the standing of a grant can only be lost |
| GrantLaws.NothingUntilReactivation | guardian/automation/preauth_store.py:217-229 | after a revocation, a new policy version or expiry nothing is authorised until the next activation |
| Approvals.ApprovalManager.CreateApprovalRequest | guardian/approval/manager.py:60-151 | a new id becomes pending; an existing one changes nothing |
| Approvals.ApprovalManager.ApproveRequest | guardian/approval/manager.py:153-220 | approves and records exactly pending requests that are not overdue, and expires overdue ones |
| Approvals.ApprovalManager.RejectRequest | guardian/approval/manager.py:222-282 | rejects and records exactly pending requests |
| Approvals.ApprovalManager.CheckExpiry | guardian/approval/manager.py:284-311 | expires an overdue pending request |
| Approvals.ApprovalManager.ValidateForExecution | guardian/approval/manager.py:313-382 | valid exactly when approved, not overdue and matching; an overdue approval expires |
| Approvals.DecisionsMatchStatus | guardian/approval/manager.py:177-311 | in every history a request has at most one decision, and its status names it |
| Approvals.StatusOnlyMovesForward | guardian/approval/manager.py:93-359 | no operation returns a request to pending or changes what was asked |
| Approvals.UsableWasApproved | guardian/approval/manager.py:343-382 | whatever may be executed was approved by exactly one recorded decision |
| Runs.RecentExactly | guardian/automation/envelope.py:508-528 | a run counts once when it has the policy and target, was not blocked and is not older than the cutoff |
| Gates.CheckGates | guardian/automation/envelope.py:353-608 | each gate in its own moment: passed up to the first gate that does not hold, then failed, then skipped; past the identity gate the stored evaluation equals the request in policy, version, action, target hash and incident, and that gate fails only where one of them differs; quota is taken only past the limiter, and an overdue approval expires exactly when its gate is asked |
| Gates.ShapeIsWellShaped | guardian/automation/envelope.py:371-378 | such rows are a passed prefix followed by failures, all passed only for all twelve |
| GateLaws.MatchedRuleWon | guardian/automation/envelope.py:501-507 | the rule that caps and grants look at is the rule that won the evaluation |
| GateLaws.DenyGateExactly | guardian/automation/envelope.py:542-546 | the policy gate stops exactly what a DENY rule of an approval-required policy matches |
| GateLaws.PrepareOnlyIsNeverDenied | guardian/automation/envelope.py:542-546 | a prepare-only policy never fails that gate |
| GateLaws.PrepareOnlyPassesExactly | guardian/automation/envelope.py:380-608 | under a prepare-only policy all gates hold exactly when the eleven others do |
| GateLaws.AllGatesAuthorize | guardian/automation/envelope.py:380-608 | all twelve gates hold exactly when the request has full authority, written out field by field, even while the world changes between gates |
| GateLaws.BoundTarget | guardian/automation/envelope.py:425-436 | with a hash that tells targets apart, the stored evaluation behind a request that passes is of its very target |
| GateLaws.GrantsNameAllGates | guardian/automation/preauth.py:161-163 | a grant can only name all twelve gates, in the order in which they are asked |
| GateLaws.AllPassedExactly | guardian/automation/envelope.py:643-644 | all rows are passed exactly when every gate holds in the moment it is asked |
| Caps.CooldownKeptExactly | guardian/automation/envelope.py:508-522 | in any history a run is stamped more than its cooldown after all earlier ones of its key exactly when it is so after those committed between its check and its own commit |
| Caps.CooldownIsKept | guardian/automation/envelope.py:517-522 | when calls take turns a run comes more than its rule's cooldown after every earlier one of its policy and target |
| Caps.CapHoldsExactly | guardian/automation/envelope.py:523-528 | no closed hour anywhere exceeds the cap exactly when none that ends with a counted run does |
| Caps.HourlyCapOvershoot | guardian/automation/envelope.py:523-528 | in any history no closed hour holds more runs than the highest cap plus the number that a check may have missed |
| Caps.HourlyCapExactly | guardian/automation/envelope.py:523-528 | the cap holds exactly when it holds in the hours of those runs whose check missed a run |
| Caps.HourlyCapIsKept | guardian/automation/envelope.py:523-528 | when calls take turns no closed hour anywhere holds more runs than the rules' hourly cap |
| Caps.GrantCapOvershoot | guardian/automation/preauth_store.py:238-252 | while all runs of a policy go through one grant, no closed hour holds more than its cap plus what a check may have missed |
| Caps.GrantCapExactly | guardian/automation/preauth_store.py:238-252 | its cap holds exactly when it holds in the hours of those runs whose check missed a run |
| Caps.GrantCapIsKept | guardian/automation/preauth_store.py:238-252 | so it holds when calls take turns |
| Caps.CallKeepsHonest | guardian/automation/envelope.py:508-530 | a call whose gates held, each in its own moment, and whose cap gate saw the rows committed by then leaves an honest history |
| Caps.GrantedCallKeepsGranted | guardian/automation/envelope.py:562-583 | a call on the pre-authorized path leaves a history in which the grant authorised each run against the rows it saw |
| CapRuns.FedRunsAreHonest | guardian/automation/envelope.py:508-530 | in every run whose gates read the rows that the run itself commits, the log of committed rows is an honest history |
| CapRuns.ExecutionsAreLogged | guardian/automation/envelope.py:684-749 | every executed action has its row in that log |
| Turns.TurnsAreKept | guardian/automation/envelope.py:508-749 | in a run whose calls of one policy do not commit between each other's cap gate and commit, every check sees all earlier runs |
| Turns.TurnsKeepCooldown | guardian/automation/envelope.py:517-522 | there two executed actions of one policy and target are stamped further apart than their rules' cooldown |
| Turns.TurnsKeepHourlyCap | guardian/automation/envelope.py:523-528 | there no hour holds more executed actions of one policy and target than the hourly cap |
| Turns.TurnsKeepGrantCap | guardian/automation/preauth_store.py:238-252 | there no hour holds more executed actions of one policy than the grant through which they all went allows |
| Turns.ExecutionsOvershoot | guardian/automation/envelope.py:523-528 | however calls overlap, no hour holds more executed actions than the cap plus what a cap gate may have missed |
| Overlaps.OverlappingCallsAllExecute | guardian/automation/envelope.py:508-749 | wherever a run has led, any number of requests, each authorised by itself, can all be executed after it; no call sees another's row |
| Overlaps.OverlapBreaksCooldown | guardian/automation/envelope.py:517-522 | whatever the cooldown, two overlapping calls of one policy and target both execute within it |
| Overlaps.OverlapBreaksHourlyCap | guardian/automation/envelope.py:523-528 | whatever the hourly cap, one more overlapping call than it allows breaks it |
| Overshoots.OvershootIsReached | guardian/automation/envelope.py:523-528 | for every cap m and every u a concrete run in which no check misses more than u runs and one hour holds m + u executions |
| Overshoots.TwoCallsBreakTheirCaps | guardian/automation/envelope.py:508-749 | a concrete policy, request and run in which two calls break a cooldown and an hourly cap |
| EnvelopeLaws.OwnerMoves | guardian/automation/envelope.py:153-160 | from the creation of the row on, in reachable states the owner's transitions are edges of both tables, so the guards never raise |
| EnvelopeLaws.CreationFollowsTheTables | guardian/automation/envelope.py:735-739 | the moves of row and attempt up to executing, made before the first commit, are edges of their tables |
| EnvelopeRuns.EnterExecuting | guardian/automation/envelope.py:735-739 | the guarded moves at creation end in executing and never raise |
| EnvelopeLaws.InvAlways | guardian/automation/envelope.py:612-912 | the protocol invariant holds after every run of any number of callers with crashes anywhere |
| EnvelopeSafety.ExecutesAtMostOnce | guardian/automation/envelope.py:719-782 | per execution id the action runs at most once, by the call that created the row after all its gates held |
| EnvelopeSafety.BlockedNeverRan | guardian/automation/envelope.py:646-676 | a blocked row never ran the action |
| EnvelopeSafety.BlockedTellsGates | guardian/automation/envelope.py:642-679 | a blocked row tells the first gate that did not hold when it was asked, or that all gates had held and the commit of the row failed |
| EnvelopeSafety.LosersOnlyWatch | guardian/automation/envelope.py:916-943 | a call that did not create the row changes nothing; it raises, or reports the row's present status, one that is still in flight only when its waiting time is over |
| EnvelopeSafety.ReplyComesExactly | guardian/automation/envelope.py:137-146 | a waiting call answers each of the seven settled statuses at once and waits on the five others until its time is over |
| EnvelopeSafety.EdgesExactly | guardian/automation/envelope.py:122-135 | the transition table of rows, edge by edge |
| EnvelopeSafety.AttemptEdgesExactly | guardian/actions/base.py:64-109 | the transition table of attempts, edge by edge |
| EnvelopeSafety.MovesDescend | guardian/automation/envelope.py:122-135 | the transition table with the downgrade edge has a strictly decreasing rank |
| EnvelopeSafety.StepsFollowTheTables | guardian/automation/envelope.py:727-857 | every committed step moves row and attempt along their tables, apart from the one downgrade |
| EnvelopeSafety.LifecycleIsAPath | guardian/automation/envelope.py:122-135 | in every run the statuses of a row form a path of the table with the downgrade edge, ending in the present one |
| EnvelopeSafety.StatusesNeverReturn | guardian/automation/envelope.py:122-135 | no row ever returns to an earlier status |
| EnvelopeSafety.RecordsAgree | guardian/automation/envelope.py:784-857 | row, attempt and verification correspond after every commit but the downgrade; a rollback means a failed verification and a stored snapshot |
| EnvelopeSafety.OwnReplyIsCommitted | guardian/automation/envelope.py:859-912 | the call that ran the action reports the committed status; its success is audited exactly when the downgrade commit did not fail |
| EnvelopeSafety.UnauditedSuccessExactly | guardian/automation/envelope.py:831-912 | a succeeded row has no audit exactly while its owner is between the two commits, when it crashed there, or when audit and downgrade commit both failed |
| EnvelopeSafety.EndedOwnersFreeze | guardian/automation/envelope.py:633-640 | once the owner's call is over nothing changes its records |
| EnvelopeSafety.CallsEnd | guardian/automation/envelope.py:612-943 | every step of a call but waiting brings it closer to its end |
| EnvelopeSafety.CrashBeforeAudit | guardian/automation/envelope.py:831-892 | a crash between the two commits leaves a success without audit |
| EnvelopeSafety.DowngradeFails | guardian/automation/envelope.py:892-912 | when audit and downgrade commit both fail the call itself returns a success that has no audit for good |
| EnvelopeSafety.ExecutesExactly | guardian/automation/envelope.py:612-782 | a request can be executed, its gates asked in given worlds, exactly when every gate holds in the world it is asked in |
| EnvelopeSafety.ReplayBeforeAudit | guardian/automation/envelope.py:916-943 | a replay in that window is told of a success without audit |
| EnvelopeRuns.SafetyEnvelope.ResolveExisting | guardian/automation/envelope.py:916-943 | among any other calls, polling changes nothing itself and ends with the status the row has by then; one that is still in flight is reported only after the last poll |
| EnvelopeRuns.SafetyEnvelope.AskGates | guardian/automation/envelope.py:642-644 | asks gates in order, each in the world it finds, stops at the first that fails, goes on exactly as far as they hold |
| EnvelopeRuns.SafetyEnvelope.CreateRecords | guardian/automation/envelope.py:684-749 | row and attempt are committed as executing, or a blocked row is left, or nothing |
| EnvelopeRuns.SafetyEnvelope.Execute | guardian/automation/envelope.py:751-782 | a snapshot is committed before the action runs, and the action runs once |
| EnvelopeRuns.SafetyEnvelope.CommitResult | guardian/automation/envelope.py:784-834 | result and verdict end in the matching row, attempt and verification |
| EnvelopeRuns.SafetyEnvelope.StageRollback | guardian/automation/envelope.py:836-857 | a rollback is staged exactly when supported, with a snapshot |
| EnvelopeRuns.SafetyEnvelope.FinalizeAudit | guardian/automation/envelope.py:859-912 | the audit is committed, or a success is downgraded, or the failure to do so is recorded |
| EnvelopeRuns.SafetyEnvelope.Run | guardian/automation/envelope.py:612-912 | a whole call, with any events of others between its steps, is a run of the protocol; a replay runs nothing and reports safety_check, executing, verifying, rollback_requested or rolling_back only after its last poll; a refused call leaves a blocked row that tells the gate, or nothing; what database, action and verifier answer determines the reply and what is left behind |
| EnvelopeAuthority.ExecutionImpliesAuthority | guardian/automation/envelope.py:642-679 | in every run each executed action was fully authorised, each part at the moment its gate was asked |
| EnvelopeAuthority.ExecutableExactly | guardian/automation/envelope.py:353-782 | in given moments a request can be executed exactly when it is well formed and all twelve real gates hold |
| EnvelopeAuthority.ExecutableWithAuthority | guardian/automation/envelope.py:285-782 | in given moments a request can be executed exactly when it is well formed and has full authority, both written out field by field |
| EnvelopeAuthority.PrepareOnlyExecutesExactly | guardian/automation/policy_v5.py:592-602 | a request can be executed under a prepare-only policy exactly when the eleven gates other than the policy gate hold |
| EnvelopeAuthority.ExecutedEvaluationTellsMode | guardian/automation/envelope.py:542-546 | of an executable request whose rule matched, the gates' own evaluation says PREPARE exactly when the policy is prepare-only |
| EnvelopeAuthority.PrepareOnlyPolicyExecutes | guardian/automation/policy_v5.py:592-602 | a concrete prepare-only policy under which an approved action runs |
| ExecutionIdentity.OneIdentityExecutesOnce | guardian/automation/envelope.py:256-288 | calls arriving under the ids of their requests: two executed actions never have the same identity, in any run |
| RateLimits.RateLimiter.Call | backend/auth.py:163-172 | forgets what expired and accepts exactly below the limit, for one key only |
| RateLimits.KeysCoincide | backend/auth.py:164-165 | two requests share a bucket exactly when client, or its absence, and path are the same |
| RateLimits.BucketIsTheWindow | backend/auth.py:167-172 | a bucket is exactly the accepted requests of its key not yet expired at its last request |
| RateLimits.AcceptedExactly | backend/auth.py:168-172 | a request is accepted exactly when fewer than the limit were accepted in its last minute |
| RateLimits.NoWindowExceedsLimit | backend/auth.py:158-172 | accepted requests within one minute of each other number at most the limit |
| Base64.StrippedPaddingComesBack | backend/auth.py:52-58 | the padding that encoding strips is what decoding puts back |
| Base64.RoundTrip | backend/auth.py:52-58 | every byte string survives encoding and decoding |
| Base64.AlphabetsDecodeAlike | backend/auth.py:56-58 | the decoder reads the standard alphabet as the URL-safe one |
| Claims.PayloadHolds | backend/auth.py:86-97 | each claim stands under its own name, and there are no others |
| Claims.LoadsDumps | backend/auth.py:98-110 | claims written as compact JSON are read back, surrogate pairs joined |
| Tokens.PartsOfSigned | backend/auth.py:98-105 | the three parts of a signed token are found again because no encoded part holds a dot |
| Tokens.CreatedTokenDecodes | backend/auth.py:83-117 | a created token gives back its claims exactly until it expires and to its own issuer, for any strings |
| Tokens.CreatedTokenTells | backend/auth.py:83-117 | what a created token decodes to: issuer, user, role and both times, each under its own name |
| Tokens.AcceptedIsSigned | backend/auth.py:103-117 | whatever is accepted carries the MAC of its first two parts, names the service as issuer and has not expired |
| Tokens.EncodableClaimsComeBack | backend/auth.py:83-117 | of encodable strings nothing is changed on the way |
| Tokens.TokensAreEqualExactly | backend/auth.py:83-100 | two tokens of one service are equal exactly when user, role and both times are |
| Tokens.SignatureBindsClaims | backend/auth.py:103-117 | with an injective MAC, accepted tokens with the same signature carry the same claims |
| JsonLaws.RoundTrip | shared/report_contract.py:57 | reading a printed value gives it back |
| JsonLaws.EscapeExactly | shared/report_contract.py:57 | seven characters have short escapes, printable ASCII stands for itself, everything else is four lower-case hexadecimal digits |
| Canonical.KeysAscend | shared/report_contract.py:57 | the printed members of a dictionary are all its members, their keys ascending by code point |
| Canonical.PrintsAlikeExactly | shared/report_contract.py:46-57 | two values print alike exactly when they have one canonical form |
| Canonical.PrintsAlikeWhenSame | shared/report_contract.py:46-57 | encodable values print alike exactly when they are equal up to the order of keys at every level |
| Canonical.SurrogatesPrintLikeTheirPoint | shared/report_contract.py:57 | two different strings that print alike, one for every code point beyond the first plane |
| Checksums.CanonicalTextExactly | shared/report_contract.py:46-62 | two reports have the same hashed text exactly when they agree apart from the checksum |
| Checksums.StampedReportVerifies | shared/report_contract.py:60-68 | a report verifies once its own checksum is stored in it |
| Checksums.VerifiesExactly | shared/report_contract.py:65-68 | with an injective hash a stored checksum vouches for exactly the reports that agree with the original |
| Identities.TargetHashTells | guardian/automation/envelope.py:251-253 | target hashes coincide exactly for equal targets |
| Identities.FingerprintNamesAction | guardian/automation/envelope.py:269-276 | the fingerprint of a request holds policy, version, evaluation, action and target hash under their names |
| Identities.FingerprintNamesAuthority | guardian/automation/envelope.py:266-283 | and incident, decision, approval, binding, mode and agent with their defaults |
| Identities.SameExecutionExactly | guardian/automation/envelope.py:256-288 | execution ids coincide exactly when the identity dimensions coincide after their defaults |
| Partitions.SplitSizes | backend/model_governance.py:442-451 | three sizes of at least one that add up, in the stated proportions; the correction branch is never needed |
| Partitions.AssertPartitionIntegrity | backend/model_governance.py:506-528 | accepts exactly nonempty partitions that cover all rows and share neither rows nor groups |
| Partitions.TimeSplitLooksBack | backend/model_governance.py:474-483 | in a time split no row is later than a row of a following partition, nor has a later position at the same time |
| Sequences.BuildSequences | backend/model_governance.py:547-587 | the nested loops collect every window of every group, and fail exactly when there is none |
| Sequences.SequencesAreWindows | backend/model_governance.py:566-576 | every sequence is consecutive rows of one group with their scaled values and last label |
| Sequences.GroupRowsAreOrdered | backend/model_governance.py:566-568 | a group's rows are all its rows in the partition, by time and at equal times in their order, or by position without timestamps |
| Sequences.SequencesAreComplete | backend/model_governance.py:571-576 | no window of a group is missing |
| Leakage.PreparePartitions | backend/model_governance.py:590-644 | succeeds exactly for sound partitions that all have sequences, with the scaler fitted on the training rows |
| Leakage.SequencesStayInside | backend/model_governance.py:566-576 | every prepared sequence lies inside one group of one partition |
| Leakage.NoLeakage | backend/model_governance.py:506-528 | sequences of different partitions share neither a row nor a group |
| Leakage.SequencesAreCounted | backend/model_governance.py:571-587 | a partition has max(0, size - L + 1) sequences for each of its groups, each group once |
| Leakage.TrainingSeesTrainOnly | backend/model_governance.py:615-626 | changing features outside the training rows changes neither split nor scaler nor training sequences |
| Registry.EvaluateQualityGates | backend/model_registry.py:144-186 | passes exactly for a promotable split and metrics that are present and within all bounds |
| Registry.RecallExactly | backend/model_registry.py:180 | of several entries for a class the last one counts |
| Registry.ModelRegistry.PromoteModel | backend/model_registry.py:227-252 | goes through exactly for a validated row with a passing validation; the loop archives every other active row of the task, and the row becomes active |
| Registry.RegistryAlways | backend/model_registry.py:108-265 | after any operations: one active row per task, no repeated checksum or task and version, active rows passed validation on a promotable split |
| Registry.OnlyPromotionActivates | backend/model_registry.py:227-252 | a row becomes active only by promotion of a row with a passing validation |
| Registry.PromotionIsExclusive | backend/model_registry.py:232-252 | promotion leaves exactly one active row for its task and other tasks untouched |
| Versions.CompareVersions | guardian/agent/upgrade.py:41-63 | rejects anything but two to four numbers and otherwise computes the padded order |
| Versions.AcceptedExactly | guardian/agent/upgrade.py:44-53 | accepted is exactly two to four nonempty runs of digits joined by dots, with white space around them |
| Versions.OrderMeans | guardian/agent/upgrade.py:55-63 | -1, 1 or 0 as the first component that differs is less, is greater or does not exist, missing ones being zero |
| Versions.WrittenVersionsAreRead | guardian/agent/upgrade.py:44-53 | two to four numbers written with dots are accepted and read as those numbers |
| Versions.PaddingIsImmaterial | guardian/agent/upgrade.py:56-63 | the padding chosen for a pair does not matter |
| Versions.OrderIsTotalPreorder | guardian/agent/upgrade.py:41-63 | versions of any lengths are totally preordered, equal up to trailing zeros |

## Left out

- Parsing and lower-casing of scope texts: the three functions are parameters (`Scopes.Texts`), so IPv6 zones, Unicode folding and address syntax are whatever they say; the exact statements about overlap assume that every address without a zone can be written, their forward halves assume nothing.
- Replies' explanations, reasons, counts in words and audit payloads: texts without consequences.
- Policies and rules are values; the validators' update of `target_scope` in place is a returned copy, so aliasing of policy objects is not captured.
- Kill switches, circuit breaker, action limiter, target validation and the policy store answer as parameters of the world; policy versions are assumed to grow.
- The action itself, snapshots, verification and rollback execution: only their outcomes. A rollback that is requested later, and its statuses, are not driven by this protocol.
- `backend/api_guardian_phase3.py`: a second flow that writes statuses outside the table.
- Approvals: what a caller rolls back after an error was raised; refusals keep what they flushed.
- Claims.Loads: only texts of the service's own form are read by the model; `json.loads` of any other payload, and `int` of an expiry that is not a decimal integer, are parameters.
- CapRuns.FedRunsAreHonest: changes that other services make to a row's status after it was committed do not reach the log that the gates read.
- SHA-256 and HMAC are parameters, injective where a theorem says so; truncation to 32 digits is part of the parameter.
- Number literals are kept as text: that `repr` of floats is injective is part of the model.
- Imputation of missing features with the median over all rows happens before partitions are prepared and is not covered by the non-interference result.
- Partitions.SplitSizes: exact proportions; floating-point rounding of `size * 0.6` is not modelled.
- The library group splitters may return any three partitions; training, metrics and model files are not modelled.
- Registry.RegistryAlways: rows are found by version in order of registration, and every operation is rolled back as a whole when it fails; metadata files written before a failure are not.
- Versions.CompareVersions: only ASCII digits and white space; other Unicode digits and blanks are not modelled.
- Dictionary equality follows printed form, so `1`, `1.0` and `True` are different values.
