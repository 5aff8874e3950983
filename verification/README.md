# Sentinel Auth: a verified model

Sentinel Auth is a login service in two halves. **Core** owns accounts, sessions, MFA and
administration; **Detection** scores every login from its history, raises alerts and asks
Core to act. This project models both halves and the protocol between them in Dafny and
proves what they keep: over whole runs, under interleaved handlers, duplicated deliveries
and commits whose outcome the caller does not learn.

The modules follow the program:

| module | models |
|---|---|
| `Basics`, `Json`, `Network` | the clock, untyped JSON values, peer addresses |
| `Features`, `Rules`, `RuleScore`, `RuleMeaning`, `PolicyConfig`, `Scoring` | from login history and a raw policy to a score, a level and a decision |
| `Detection`, `DetectionDb`, `Delivery`, `Gate` | the scoring transaction, its tables, event delivery with recovery and enforcement, the pre-token gate |
| `Enforcement` | the call from Detection to Core, across both services |
| `PolicyActivation`, `AlertDesk` | which policy is active; the alert lifecycle and its timeline |
| `RateLimiter`, `LoginLimits` | the request counter, alone and inside the running service |
| `Sessions`, `Core`, `CoreApp` | the sessions table; Core's tables and handlers as steps; the same handlers updating fields in place |
| `TokenSafety`, `Challenges`, `Provenance`, `KeyedActions`, `Iam` | what every run of Core keeps |
| `Accounts`, `Bearer`, `OtpAttempts`, `DeviceRequests` | what each request does, exactly: to accounts, to sessions, to challenges and to device requests |
| `AuditTrail` | the notes of the audit trail against the tables |
| `Analytics` | window validation, the bucket grid and zero-filled series |

Conventions. A table is a sequence whose positions are the ids, or a map where the schema
has a natural key. A step function (`Apply`) says what one database transaction does, `Run`
folds it over a list of steps, and a theorem about `Run` holds for every list. Handlers that
update rows in place are class methods proved equal to the step of the same purpose. Fields
called history in comments (who issued a token, which transaction produced a session, which
audit row ended it) are written by the model next to the source's columns and read only by
theorems. Time is in whole microseconds, scores are exact reals.

Where the code and its documentation disagree the model follows the code. Differences that
the proofs bring out:

- Scoring can raise, in dry runs too, against `app/detection.py:15-16` and
  `app/detection.py:117`: on an unhashable field or operator; on an integer weight, score or
  threshold too large for a float; when a rule that fires has a description that is not text;
  and when the first rule object with the name of a rule that fires, skipped or not, has a
  list or dict for its field, because the value to log is looked up by it
  (`Scoring.AssessRaisesExactlyWhen`, `Scoring.SkippedNamesakeRaises`). Activation fails with
  a server error or a refusal on all but the description, which it lets pass
  (`PolicyActivation.CheckPolicy`, `PolicyActivation.ActivatedPolicyIsClean`).
- A policy config that is not an object is replaced by the defaults without a problem being
  reported (`PolicyConfig.NoProblemsExactlyWhen`).
- Losing the ML service lowers the combined score in some cases and raises it in others
  (`Scoring.LosingMl`). With weights that add up to exactly one it lowers it just when ML had
  scored above the rules (`Scoring.LosingMlExactWeights`); within the tolerance on the weights
  it can lower it even when ML agreed (`Scoring.LosingAgreeingMlLowers`).
- The pre-token gate is not sent the device fingerprint that the delivered event carries, so
  it judges the device by its agent. It can let a token go for a login whose event is then
  scored as critical (`Gate.GateMissesNewDevice`); on the device it never errs the other way
  (`Gate.GateNeverStricter`).
- The gate is documented to fail open on any error (`app/auth.py:406-409`). An answer that is
  JSON but not an object, or one that demands MFA with a list or object for its level, ends
  the login as a server error instead (`Gate.BreaksExactlyWhen`).
- The 366-day and 31-day window checks refuse nothing that the bucket limit does not: an
  hourly window ends at 400 hours (`Analytics.AcceptedExactlyWhen`).
- An OTP is judged by the instant its handler arrived, so a handler that waited for the row
  lock can open a session after the challenge expired by the clock (`Challenges.LateCommit`,
  exact condition in `Challenges.OnTimeExactlyWhen`).
- A trusted-device completion that is waiting for the gate is not stopped by an MFA flag
  raised meanwhile (`Provenance.FlagLosesRace`); with no completion at the gate, only OTPs
  give the user sessions for as long as the flag is up, under every interleaving
  (`Provenance.OnlyOtpExactlyWhen`).
- Neither OTP verification nor a completion that has passed its checks looks at a lock put on
  the account meanwhile; the session it opens does not authenticate until the account is
  unlocked (`Provenance.LockedAccountExactlyWhen`).
- The last-administrator guard also refuses to lock an ordinary account when there is one
  administrator (`Iam.LockGuardRefusesTooMuchExactlyWhen`), and Detection's own lock does not
  use the guard (`Iam.DetectionLocksLastAdminExactlyWhen`).
- `_same_ip` describes itself as never accepting an unknown address, yet treats two unknown
  peers as equal; no caller can reach that (`Network.UnknownMatchesUnknown`,
  `Network.BindingsMeanSamePeer`).
- A free-text reason of an un-keyed action that imitates an idempotency key makes the first
  keyed delivery a repeat (`KeyedActions.ImitatedKeySuppresses`, exact condition in
  `KeyedActions.KeyedDeliveryIdleExactlyWhen`).

Check the project with `dafny verify dfyconfig.toml`.

## Model

| member | source | states |
|---|---|---|
| Delivery.ExactlyOnce | app/detection.py:745-838 | Over every interleaving of duplicated deliveries, ambiguous commits, crashes and one recovery sweep: one attempt per event, at most one assessment and one alert per attempt, scoring returns at most once, Core is called at most once, and a processed high or critical attempt has exactly one alert, its primary |
| Delivery.CallsMatchVerdicts | app/detection.py:884-915 | Every call to Core is made for a processed high or critical attempt that names a user, at exactly the level it is stored with |
| Delivery.VerdictIsFinal | app/detection.py:963-998 | Once scoring has returned for an attempt, no later step of any handler or sweep changes its row, assessment or alert |
| Enforcement.AtMostOneActionPerAttempt | app/detection.py:887-910 | Across both services: whatever Detection's interleavings and whatever the network repeats, Core records at most one action for an attempt, the one its stored level demands for the user it names, and none if Detection made no call; what the action does is HighDemandsMfa and CriticalEndsSessions |
| Enforcement.HighDemandsMfa | app/detection.py:98-101 | For an attempt stored as high, the first call to reach Core for an existing user raises the one-time MFA flag and ends every session of the user; the next right-password login gets an OTP challenge and no session |
| Enforcement.CriticalEndsSessions | app/detection.py:98-101 | For an attempt stored as critical, the first call ends every session of the user and leaves every account as it was |
| Enforcement.OnlyRiskyCall | app/detection.py:883-886 | Calls are made for attempts stored as high or critical only |
| Enforcement.KeysTellAttempts | app/detection.py:887-895 | As ids hold no colon, two keys are equal exactly for the same attempt and the same action |
| Enforcement.AttemptsDoNotCollide | app/internal_actions.py:101-116 | The call for one attempt never puts another attempt's action on record |
| Delivery.StepKeepsInv | app/detection.py:1034-1128 | The protocol invariant (who owns a pending attempt, what each handler has read, what the sweep holds) survives every step and every commit outcome |
| Delivery.RunKeepsInv | app/detection.py:1034-1128 | The same invariant over every run |
| Delivery.StepKeepsVerdict | app/detection.py:963-998 | A returned verdict survives each single step |
| Delivery.FirstDeliveryScores | app/detection.py:1034-1128 | An undisturbed first delivery inserts one row, leaves it processed at its verdict's level, and calls Core exactly if that is high or critical and the login names a user |
| Delivery.RepeatedDeliveryIsAnswered | app/detection.py:1034-1046 | A delivery of a known event is answered and changes nothing |
| Delivery.ParkedIsFailed | app/detection.py:1106-1123 | A run that raised leaves its attempt failed once parked, with every other row and table as before |
| Delivery.RaisingRunIsParked | app/detection.py:1104-1123 | A run that raises ends with its attempt failed and nothing else changed |
| Delivery.UnconfirmedRunIsParked | app/detection.py:1104-1123 | A run whose commit is not confirmed ends with its attempt failed, without a return or a call, also when the commit reached the tables |
| Delivery.UnconfirmedInsertEnds | app/detection.py:1048-1083 | An unconfirmed insert, or the loser of a race for an event, ends the request and leaves at most the pending row |
| Delivery.SweepGoesOn | app/detection.py:963-998 | A row whose run fails neither stops the sweep nor is called for |
| Delivery.FailedIsRecoverable | app/detection.py:963-998 | In every reachable state with the sweep idle, a sweep over a failed attempt leaves it processed at its verdict's level and calls Core exactly if that demands it |
| Delivery.SendLoginEvent | app/auth.py:122-172 | The sender posts once or twice, the second time exactly after a network or server error, and reports delivery exactly for a status below 400 |
| DetectionDb.Database.ProcessAttempt | app/detection.py:600-856 | The scoring run, updating attempt, assessment, alert and log rows in place, leaves exactly the tables and result of the transaction's specification for each commit outcome, and nothing changes when it does not persist; what those tables hold is Detection.ResponseMatchesTables |
| DetectionDb.Database.EvaluateLogin | app/detection.py:636-716 | Policy, features, rules, the lookup of each hit's value, ML and thresholds combine into the specified verdict, including every run that raises |
| DetectionDb.Database.ReceiveLoginEvent | app/detection.py:1034-1128 | A known event changes nothing and reports its row; a new one inserts exactly one row and scores it or parks it, with the whole new state for every commit outcome; it is answered and calls Core exactly when stated |
| DetectionDb.Database.WriteVerdict | app/detection.py:736-838 | The in-place writes of a verdict are those of the transaction's specification |
| DetectionDb.AssessRules | app/detection.py:670-716 | Rules, the lookups for the log, blend and level give the specified assessment, or raise exactly when the rules or a lookup do |
| DetectionDb.Database.Rescore | app/detection.py:963-998 | One row of the sweep is settled by the verdict on it; the call to Core is made exactly when the run returns a level that demands it |
| DetectionDb.Database.RescoreFailed | app/detection.py:963-998 | The sweep settles its rows one after the other, each by the verdict on the tables as the sweep found them; it counts exactly the rows whose run returned and calls Core for exactly those of them, in order, whose verdict demands it |
| DetectionDb.SweptRow | app/detection.py:963-998 | A queued row ends processed at its verdict's level if there is one and its commit reached the tables, and otherwise stays as it was, whatever its place in the queue |
| DetectionDb.UnsweptRow | app/detection.py:963-998 | A row outside the queue is not touched |
| DetectionDb.CalledExactlyWhen | app/detection.py:985-996 | Core is called for a queued row exactly if its run returns high or critical and its login names a user |
| DetectionDb.VerdictStands | app/detection.py:963-998 | Rows scored earlier in a sweep do not change the verdict on a later one |
| DetectionDb.SweepKeepsSound | app/detection.py:963-998 | A sweep keeps all constraints and the link from risky attempts to their alert |
| DetectionDb.SettlesNewRow | app/detection.py:1104-1123 | A new row ends processed at its verdict's level, parked as failed, or untouched, by the verdict and the two commits; no other row changes |
| DetectionDb.ProcessKeepsSound | app/detection.py:745-838 | Whatever the policy, ML outcome and commit, a run keeps all constraints and the link from risky attempts to their alert |
| DetectionDb.ProcessTouchesOnly | app/detection.py:745-838 | A run changes its own attempt only, and nothing if its commit fails |
| Detection.PersistKeepsSound | app/detection.py:745-838 | With an accurate read the transaction meets every constraint and leaves a sound store |
| Detection.DryRunAgrees | app/detection.py:1206-1240 | A dry run returns the scores, level, decision and hits of the persisted run, and differs in the alert only when that run has just opened it |
| Detection.ResponseMatchesTables | app/detection.py:745-856 | What the caller is told is what the tables hold: status, level, decision, scores, hits and primary alert agree between response, attempt, assessment and alert, under the active policy's id; without a policy the login is allowed at low and nothing else is written |
| Detection.OpensAlertExactlyWhen | app/detection.py:776-820 | An alert with its created event is opened exactly for the first high or critical verdict on an attempt |
| Detection.ReturnsExactlyWhen | app/detection.py:745-838 | A run returns exactly when scoring does not raise and the commit is confirmed, and changes the tables exactly when the commit reached them |
| Detection.StagesLogged | app/detection.py:660-838 | Log rows per stage: one for each hit and problem, one each for ML call, final score and action, the final one alone without a policy, none about other attempts |
| Detection.AlertOfMeaning | app/detection.py:776-784 | The alert looked up for an attempt is one of its alerts, and none is found only if there is none |
| Detection.ParkKeepsSound | app/detection.py:1106-1123 | Parking an attempt as failed keeps the store sound |
| Detection.InsertKeepsSound | app/detection.py:1047-1082 | Inserting a new event's row keeps the store sound |
| Detection.GateAlertAndActionCoincide | app/detection.py:92-101 | The levels that open an alert are exactly those with an automated action, and exactly those not decided as allow |
| Gate.HeldExactlyWhen | app/auth.py:400-453 | When Detection answers, the token is held exactly if the gate is on and the dry run returned high or critical, at that level, and the login never breaks; when the request fails, is refused or is answered without JSON, the login proceeds |
| Gate.BreaksExactlyWhen | app/auth.py:439-453 | Over every possible answer: the login ends as a server error exactly for JSON that is not an object, and for an object that is not degraded, demands MFA and has a list or an object for its level |
| Gate.GateAgreesExactlyWhen | app/detection.py:1206-1240 | Under every policy and ML outcome the gate holds a token exactly when the login's event, delivered to the same tables, is scored with an alert - if and only if the vector of the gate's attempt, which has no fingerprint and its own instant, is the event's vector |
| Gate.AgreesWhenDeviceAndAgentDo | app/auth.py:415-427 | Whenever the gate is asked, it agrees with the event's scoring under every policy if and only if the five other features are the same at both instants and the user has used the fingerprint in the 30 days before the event exactly when the agent is missing or was used in the 30 days before the gate |
| Gate.GateMissesNewDevice | app/detection.py:418-469 | With a known or missing agent and an unknown fingerprint, under a policy that blocks new devices, the gate lets the token go at whatever instant it is asked, and the event is scored with an alert |
| Gate.GateNeverStricter | app/device_fingerprint.py:12-20 | As a fingerprint determines its agent, a gate asked before the event with nothing of the user's in between never sees a new device where the event does not |
| Gate.MaterialDetermines | app/device_fingerprint.py:51-64 | Two fingerprint texts are equal exactly when all three headers are, as long as language and encoding hold no separator |
| Gate.MaterialCollides | app/device_fingerprint.py:64 | With a separator in the language header two different browsers share a fingerprint text |
| Gate.SampleMissed | app/detection.py:1206-1216 | A concrete history and login for which that happens |
| Features.BuildFeatures | app/detection.py:332-415 | The engine's computation of the six features is the specified vector, whose parts FailuresMeaning, IpChangeMeaning, NewDeviceMeaning, AverageIntervalClosedForm, DeviationMeaning and HourMeaning state on the rows |
| Features.GapFeatures | app/detection.py:361-398 | Collecting and averaging the gaps one by one gives the closed-form mean and the specified deviation |
| Features.FailuresMeaning | app/detection.py:357-368 | fail_count_24h is the number of the user's rows in the 86400 seconds before the attempt that failed |
| Features.IpChangeMeaning | app/detection.py:370-384 | ip_change_rate_7d is one minus the share of the user's rows of the last seven days that come from the attempt's address, and zero without rows or address |
| Features.HourMeaning | app/detection.py:332-350 | The hour is the one of its UTC day that the attempt lies in |
| Features.DeviationMeaning | app/detection.py:399-413 | With k gaps that span a distance, the deviation is |k * elapsed - distance| / distance capped at one, and zero when the stamps coincide |
| Features.NoGapsMeaning | app/detection.py:341-352 | Without a user every feature but the hour is zero, and with fewer than two rows the interval features are |
| Features.FeaturesDependOnlyOnThePast | app/detection.py:332-415 | Databases with the same rows of this user strictly before the attempt give the same vector, whatever else they hold and in whatever order |
| Features.IrrelevantRowIgnored | app/detection.py:341-352 | A later, simultaneous or other-user row changes nothing, wherever it is returned |
| Features.OrderIrrelevant | app/detection.py:341-415 | The order of rows does not matter |
| Features.AverageIntervalClosedForm | app/detection.py:361-382 | The mean gap over the last k stamps, k at most 10, is (newest - oldest) / (k - 1) in whole seconds, rounded down |
| Features.VectorsMeetMlContract | app/ml.py:64-70 | Every emitted vector lies in the ranges the ML service accepts |
| Features.NewDeviceMeaning | app/detection.py:418-469 | A device is new exactly when no row of the user's last 30 days carries its fingerprint, or its agent when there is no fingerprint |
| Features.RecentDescending | app/detection.py:361-370 | The stamps used are in descending order and at most ten |
| Features.RecentAreNewest | app/detection.py:361-370 | No relevant row left out is newer than one used |
| Rules.EvaluateRules | app/detection.py:250-311 | The evaluation loop returns the specified score, hits and problems, or raises exactly when the specification does; over the raw JSON these are RuleMeaning.ScoreOfObjects and ReportedExactlyWhen |
| Rules.CollectUsable | app/detection.py:263-279 | The first pass keeps the valid enabled rules in order, reports the invalid ones, and stops at the first that raises |
| Rules.CollectHits | app/detection.py:288-308 | The second pass collects the rules that fire with their contributions |
| Rules.NotBetweenIsComplement | app/detection.py:186-211 | On numeric bounds not_between is the complement of between |
| RuleMeaning.ActiveExactlyWhen | app/detection.py:214-247 | A rule object takes part if and only if it has the six names, one of the six features, one of the nine operators with a value of its shape, a weight and a score that are numbers in [0, 1], and an enabled that is missing or true |
| RuleMeaning.ReportedExactlyWhen | app/detection.py:263-277 | A skipped object is reported under its position, as an unknown feature exactly when it is complete and its hashable field names none, and else as invalid |
| RuleMeaning.FiresOnComparison | app/detection.py:186-211 | For each of the six comparison symbols: against a number it fires exactly when the named feature stands in that relation to it, and against text, null, lists and objects only for != |
| RuleMeaning.FiresOnRange | app/detection.py:186-211 | between and not_between fire exactly inside and outside their two numbers |
| RuleMeaning.FiresOnMembership | app/detection.py:186-211 | in fires exactly when some number of the list equals the feature |
| RuleMeaning.ScoreOfObjects | app/detection.py:281-311 | Over the raw JSON: the score is the sum of score times weight of the objects that fire, divided by the sum of the weights of those that take part, and the hits are the firing objects in order with their own name, score and weight |
| RuleMeaning.OneFiringObject | app/detection.py:284-310 | One firing object scores its own score, whatever its positive weight |
| RuleScore.ScoreIsWeightedMean | app/detection.py:284-311 | The contributions of the hits sum exactly to the rule score, which lies in [0, 1], never exceeds the largest score that fired, and is never cut by the cap at 1 |
| RuleScore.HitsDecompose | app/detection.py:284-308 | The sum of contributions is the fired weight-times-score over the total weight |
| RuleScore.MeanAtMost | app/detection.py:284-311 | The weighted mean is bounded by any bound on the fired scores |
| RuleScore.RuleOrderIrrelevant | app/detection.py:250-311 | Permuting the rules permutes the hits and leaves the score, and whether evaluation raises |
| RuleScore.DeadRuleIrrelevant | app/detection.py:263-282 | Deleting a disabled or rejected rule changes neither score nor hits nor whether rule evaluation raises; whether the lookup after it raises it can change (Scoring.SkippedNamesakeRaises) |
| RuleScore.MoreHitsNeverLower | app/detection.py:284-311 | If every rule that fires on one vector fires on another, the score on the other is no lower |
| RuleScore.RaisesExactlyWhen | app/detection.py:214-311 | Evaluation raises if and only if a rule is unhashable where it is looked up or oversized where it is converted, or the total weight is positive and a firing rule's description is not text |
| RuleScore.OversizedWeightRaises | app/detection.py:239-245 | A numeric weight makes evaluation raise exactly when it is an integer beyond the range of floats |
| RuleScore.ScoringCanRaise | app/detection.py:15-16 | Concrete rules on which evaluation raises, although the documentation says it never does |
| RuleScore.RefusedRuleRaises | app/detection.py:214-247 | A policy of one complete rule with an unhashable field or operator or an oversized weight or score raises on every vector |
| RuleScore.LookupFailsExactlyWhen | app/detection.py:671-684 | The lookup for the log raises on some hit if and only if some active rule that fires shares its name with a rule object whose field is a list or dict and which comes first under that name |
| Rules.MatchedValue | app/detection.py:1001-1008 | The loop over the rule objects raises exactly when the first one of the name has a list or dict for its field |
| Rules.NamesakeIsFirst | app/detection.py:1001-1008 | The object the lookup uses is the first of the name, and none is used only if there is none |
| PolicyConfig.ResolveConfig | app/detection.py:116-174 | The key-by-key loop over a raw config computes the specified weights, thresholds and problems, or raises on an oversized integer |
| PolicyConfig.ConfigRaisesExactlyWhen | app/detection.py:130-162 | Resolution, documented never to raise, raises if and only if one of the five numbers is an integer beyond the range of floats |
| PolicyConfig.ResolveWeights | app/detection.py:125-147 | Weights are taken when both are positive numbers in [0, 1] that add up to 1 within tolerance, and replaced by the defaults otherwise |
| PolicyConfig.ResolveThresholds | app/detection.py:149-172 | Thresholds are taken when all three are numbers in [0, 1] in order, and replaced by the defaults otherwise |
| PolicyConfig.ParseKeys | app/detection.py:129-138 | The parsing loop keeps exactly the keys that read as numbers in the unit interval and reports the others, and raises at an oversized integer |
| PolicyConfig.ResolvedIsUsable | app/detection.py:116-174 | Whatever the raw config, what resolution returns has positive weights that add up to 1 within 1e-6, and low <= medium <= high inside [0, 1] |
| PolicyConfig.DefaultsExactlyWhen | app/detection.py:116-174 | Each key of a fully valid section is taken, and any other section is replaced by 0.4 and 0.6, or by 0.25, 0.50 and 0.75 |
| PolicyConfig.WeightsReported | app/detection.py:125-147 | For the weights, when each kind of problem is reported: no object, no number, outside the unit interval, a sum off one, a part missing |
| PolicyConfig.ThresholdsReported | app/detection.py:149-172 | The same for the thresholds, key by key |
| PolicyConfig.ThresholdOrderReported | app/detection.py:160-172 | And for their order and completeness |
| PolicyConfig.NoProblemsExactlyWhen | app/detection.py:116-174 | No problem is reported if and only if each section is absent, null or fully valid, and then resolution does not raise and nothing a present section says is lost; a config that is not an object counts as having neither section |
| Scoring.Combine | app/detection.py:704-716 | The blending branches compute the specified combined score |
| Scoring.AssessRaisesExactlyWhen | app/detection.py:636-716 | The whole engine, documented to skip and log what is malformed, raises if and only if the config holds an oversized integer, a rule is unhashable or oversized, or, with a positive total weight, a rule that fires has a description that is not text or a first namesake with a list or dict for its field |
| Scoring.SkippedNamesakeRaises | app/detection.py:15-16 | Two rules of one name, the first skipped for its missing parts: evaluation returns and scoring raises, and without the skipped rule scoring returns |
| Scoring.FourBands | app/detection.py:589-597 | Under any raw config each score in [0, 1] falls in exactly one of four ordered bands |
| Scoring.DecidedByScore | app/detection.py:704-716 | End to end: a login is blocked from the high threshold on, challenged from the medium one on, allowed below, and raises an alert exactly when not allowed |
| Scoring.CombinedByScores | app/detection.py:698-708 | The combined score is the weighted sum of the evaluated rule score and the ML score, cut off at one, or the rule score without an ML score |
| Scoring.ClampIsTiny | app/detection.py:704-716 | The clamp moves the blended score by at most 1e-6 |
| Scoring.CombinedMonotone | app/detection.py:704-716 | More rule score or more ML score never lowers the combined score |
| Scoring.RiskMonotone | app/detection.py:589-597 | End to end: under any policy a superset of fired rules together with a higher ML score never lowers the level |
| Scoring.LosingMl | app/detection.py:704-716 | For all non-negative weights: losing ML lowers the combined score exactly when the ML weight times the ML score exceeds what the rule weight leaves of a rule score below 1, and raises it exactly when it falls short of that |
| Scoring.LosingMlExactWeights | app/detection.py:704-716 | With weights that add up to one: lower exactly when ML scored above the rules, higher exactly when below |
| Scoring.LosingAgreeingMlLowers | app/detection.py:140-143 | A config without problems under which losing an ML score equal to the rule score lowers the combined score |
| Scoring.AssessmentInRange | app/detection.py:704-716 | Every assessment's scores lie in [0, 1] and its level and decision follow from them |
| PolicyActivation.PolicyTable.Activate | app/detection.py:1281-1337 | Activation succeeds exactly for an existing valid policy, which is then the only active one; a missing policy and one whose checks raise are answered exactly as such; otherwise nothing changes |
| PolicyActivation.CheckPolicy | app/detection.py:1304-1316 | The checks pass exactly the valid policies and fail as a server error exactly when the config or a rule makes them raise |
| PolicyActivation.StepKeepsOneActive | app/models.py:485-491 | After every database step of interleaved activations at most one policy is active, and never none once there is one |
| PolicyActivation.OneActiveForever | app/detection.py:1281-1337 | The same over every run |
| PolicyActivation.CommitOutcome | app/detection.py:1318-1337 | The unique index accepts a commit exactly when nothing outside its snapshot became active meanwhile, and then the target is the one active policy |
| PolicyActivation.UndisturbedActivation | app/detection.py:1281-1337 | With a valid policy and no other transaction, activation leaves that policy as the one active one, whatever was active before |
| PolicyActivation.ActivatedPolicyIsClean | app/detection.py:1304-1316 | For an activated policy the config resolves, without raising and without problems, evaluation reports none on any vector, and scoring raises if and only if the total weight is positive and a rule that fires has a description that is not text |
| AlertDesk.TimelineReplays | app/detection.py:792-828 | In every reachable state, replaying an alert's status-carrying events gives its status, each such event links to the one before, and resolved_at is set exactly in the two terminal statuses |
| AlertDesk.LifecycleMovesForward | app/alerts.py:562-617 | Statuses only move forward, the terminal ones keep status, resolution and time for ever, and the timeline is append-only |
| AlertDesk.ResolveMeaning | app/alerts.py:545-620 | An alert that is not closed becomes a false positive exactly for that outcome and resolved for any other, closed as of now, with two events that tell the change; a closed one is left alone |
| AlertDesk.AcknowledgeMeaning | app/alerts.py:498-542 | Only an open alert is acknowledged, with its one event |
| AlertDesk.AssignMeaning | app/alerts.py:624-680 | Only an active analyst's id is assigned, and a first assignment and a change are told apart |
| AlertDesk.NotingMeaning | app/alerts.py:683-865 | Raising, noting an action and adding by hand append one event each and change no existing alert |
| AlertDesk.StatusRoundTrip | app/alerts.py:545-565 | The four status texts stand for the four statuses, both ways |
| AlertDesk.KindRoundTrip | app/alerts.py:304-332 | And the nine kinds of events |
| AlertDesk.StepKeepsInv | app/alerts.py:510-538 | Each operation keeps the replay invariant |
| AlertDesk.UuidIsNoStatus | app/alerts.py:655-676 | The assignee id a reassignment writes into status_changed is never a status name |
| AlertDesk.UuidMeaning | app/alerts.py:637-643 | An assignee id is accepted as text exactly when it is 32 hexadecimal digits with hyphens anywhere and braces around |
| AlertDesk.AlertBoard.AcknowledgeAlert | app/alerts.py:498-538 | Acknowledging in place is the specified step, with its refusals |
| AlertDesk.AlertBoard.ResolveAlert | app/alerts.py:545-617 | Resolving in place is the specified step, with its refusals |
| AlertDesk.AlertBoard.AssignAlert | app/alerts.py:624-676 | Assigning in place is the specified step, including its status_changed event |
| AlertDesk.AlertBoard.RequestSecurityAction | app/alerts.py:704-803 | Requesting an action appends the specified event and changes no status |
| AlertDesk.AlertBoard.AddTimelineEvent | app/alerts.py:842-862 | A manual event appends a row with no status in it |
| AlertDesk.AlertBoard.RaiseAlert | app/detection.py:792-828 | A new alert starts open with its created event |
| RateLimiter.Limiter.Hit | app/auth.py:479-520 | One request on one row: refused exactly inside a full window, otherwise counted or the window restarted, and untouched when the transaction rolls back (AdmittedMeaning) |
| RateLimiter.IntervalBound | app/auth.py:479-520 | With a clock that never goes back, any interval of length T holds at most max_count * (ceil(T / 60 s) + 1) admitted and committed requests |
| RateLimiter.BlockEndsOnTime | app/devices.py:333-360 | Refusals leave the row alone and the block ends one minute after the window opened |
| RateLimiter.RefusedOnlyWhenFull | app/auth.py:479-520 | Over every run, a request is refused only if five were admitted in the minute before it |
| RateLimiter.AdmittedMeaning | app/auth.py:503-520 | An admitted request opens a window with itself as the first, or is the next in the open one |
| RateLimiter.TraceOfRun | app/auth.py:479-520 | The admitted requests of a run fill consecutive windows, each up to its limit |
| LoginLimits.ChecksAreBounded | app/devices.py:333-360 | In any run of the whole service the peers of one address, in any spelling, get at most 5 * (ceil(T / 60 s) + 1) credential checks in any interval of length T, at each of the two pages |
| LoginLimits.RefusedOnlyWhenFull | app/auth.py:479-501 | In any run of the service a request is answered 429 only if five of its address were let through in the minute before |
| LoginLimits.RunCounted | app/auth.py:479-520 | The counter's row in a run of the service is the row of its own address's arrivals alone, and the requests not answered 429 are exactly the admitted ones |
| LoginLimits.StepCounted | app/auth.py:479-520 | A step of the service moves an address's counter exactly when it is a request from that address, and answers 429 exactly when it is denied |
| Network.BindingsMeanSamePeer | app/devices.py:130-157 | Both IP bindings and the session address accept a peer exactly when it is the same machine in any spelling, and never an unknown one |
| Network.UnknownMatchesUnknown | app/devices.py:140-151 | The comparison itself does accept two unknown peers |
| Sessions.FindAccessFinds | app/authz.py:94-106 | The session found is unrevoked, unexpired and holds the token; none is found only if there is none |
| Sessions.FindRefreshFinds | app/auth.py:938-946 | The same for refresh tokens |
| Sessions.DoKeepsBook | app/auth.py:691-708 | Every change of the sessions table keeps tokens tied to their session, refresh tokens unused and expiry an hour after creation |
| Sessions.DeadForever | app/authz.py:94-122 | A token that was replaced, revoked or expired opens no session at any later time |
| Sessions.EndAllCounts | app/internal_actions.py:156-166 | The count of the bulk update is the number of sessions that name its audit row |
| TokenSafety.OpOf | app/auth.py:691-708 | Every step of Core changes the sessions table by at most one addition, rotation, revocation or bulk revocation, and the audit trail accordingly |
| TokenSafety.SessionsOnlyDecay | app/auth.py:938-973 | Over every run revoked_at never returns to null, and expires_at stays one hour after creation |
| TokenSafety.WithinTheHour | app/authz.py:94-122 | A token opens only the session it was issued for, of an active user, and less than an hour after that session's creation |
| TokenSafety.RefreshAcceptedOnce | app/auth.py:938-973 | A refresh token that was accepted is refused ever after |
| TokenSafety.RefreshRetiresAccess | app/auth.py:951-973 | The access token replaced by a refresh never authenticates again |
| TokenSafety.DeadTokensStayDead | app/authz.py:94-122 | No run brings back a token that was replaced, revoked or expired |
| TokenSafety.BulkRevocationIsFinal | app/internal_actions.py:156-199 | No token issued to a user before a bulk revocation authenticates after it |
| TokenSafety.UnrevokedAreYounger | app/iam.py:87-93 | Every unrevoked session of a user was created after the user's last role change, lock, MFA toggle, protective action or log-out everywhere |
| TokenSafety.AuditAddsUp | app/internal_actions.py:156-216 | Over every run the sessions_revoked in the protective actions' audit rows add up to the sessions those actions revoked |
| TokenSafety.RunKeepsCounts | app/iam.py:153-166 | Row by row, every audit row reports exactly the sessions it ended |
| AuditTrail.TrailTellsTables | app/auth.py:727-740 | Over every run the notes of the audit trail tell what the tables hold: each session opened once, each exchange with its two tokens, each ending not reported by a bulk row; each device request, its approval and its one use; each registration |
| AuditTrail.RunKeepsTold | app/devices.py:164-200 | The inductive half for sessions and device requests, from any reachable state |
| AuditTrail.AccountsTold | app/auth.py:362-376 | The inductive half for accounts: one registration note for each account added since the start |
| Bearer.AuthenticateExactlyWhen | app/authz.py:94-134 | A token opens exactly the unrevoked, unexpired session of an active user that holds it, of which there is at most one |
| Bearer.NewSessionOpens | app/auth.py:675-750 | Every new session begins now, for the peer that asked, lasts an hour, and opens to its access token on the spot exactly for an active user |
| Bearer.RefreshExactlyWhen | app/auth.py:938-973 | A refresh is accepted if and only if an unrevoked, unexpired session holds the token; it replaces both tokens by fresh ones and nothing else |
| Bearer.RefreshedTokensWork | app/auth.py:951-978 | The tokens handed out by a refresh open the session and renew it again |
| Bearer.LogoutExactlyWhen | app/auth.py:981-1006 | Logging out ends exactly the session its token opens |
| Bearer.LogoutAllExactlyWhen | app/auth.py:1009-1032 | Logging out everywhere ends exactly the live sessions of the token's user |
| Accounts.LogoutAllAudited | app/auth.py:1016-1030 | Logging out everywhere writes one row with its own cause, the user and the number of sessions ended |
| Bearer.RevokeExactlyWhen | app/auth.py:1094-1130 | Revoking ends exactly one of the caller's own sessions; 404 without such a session and 403 for another user's |
| Bearer.OthersSessionsAreSafe | app/auth.py:1094-1130 | Whatever is done with an access token, the sessions of other users stay as they are |
| Bearer.EndedStaysEnded | app/authz.py:94-122 | An ended session's token opens nothing in any continuation |
| Challenges.OtpInvariant | app/auth.py:797-890 | Over every run: fail_count at most 3, failed exactly at 3, completed exactly when verified_at is set, and that before expiry |
| Challenges.OtpOutcomesAbsorb | app/auth.py:797-812 | A completed, failed or expired challenge never changes again |
| Challenges.OtpCompletesExactlyWhen | app/auth.py:811-890 | A pending challenge is completed exactly by the commit of a verification that arrived before expiry with the right code and, if an IP is bound, from it |
| OtpAttempts.MissIsCounted | app/auth.py:839-863 | A wrong code entered in time on a pending challenge is answered 401, counted, and on the third time fails the challenge; nothing else changes |
| OtpAttempts.OnlyMissesCount | app/auth.py:839-846 | No other step changes the count |
| OtpAttempts.MissesAreCounted | app/auth.py:839-846 | Over every run and interleaving the count grows by exactly the misses, and the challenge is failed exactly at three |
| OtpAttempts.ThreeMissesAreFinal | app/auth.py:797-812 | After three misses no session ever comes from the challenge, whatever code is entered |
| OtpAttempts.VerifyReplies | app/auth.py:797-916 | What the holder of the row answers, case by case and in order, and what it writes |
| OtpAttempts.AcceptedWrites | app/auth.py:846-903 | An accepted code completes the challenge, stamps the account and lowers only a one-time flag by a one-time challenge; any other answer leaves accounts and sessions alone |
| OtpAttempts.LockTakenExactlyWhen | app/auth.py:781-795 | A waiting handler takes the row exactly when it is there, free and an OTP challenge, and reads it as it is |
| OtpAttempts.CrashFreesRow | app/auth.py:781-787 | A handler that dies writes nothing and frees its row |
| Challenges.LockExcludes | app/auth.py:781-787 | At most one handler works on a locked row, and the row is as it read it |
| Challenges.OnTimeExactlyWhen | app/auth.py:771-815 | Over any interleaving between arrival and commit, an accepted verification's session is created before the challenge expires exactly when the clock steps in between add up to less than the validity left on arrival |
| Challenges.PromptVerificationOnTime | app/auth.py:771-815 | If no time goes by in between it always is |
| Challenges.LateCommit | app/auth.py:771-815 | A run in which a verification that waited for the lock opens a session after expiry by the clock |
| Challenges.RunKeepsInv | app/devices.py:547-592 | Tokens, rows, locks and waiting handlers stay consistent over every interleaving, and rows only move forward |
| Challenges.StepKeepsDesk | app/auth.py:781-903 | The same for each single step |
| Challenges.RequestOnlyAdvances | app/devices.py:467-520 | A request's status only moves forward in pending, completed, failed, expired; consumption and first approval are kept once recorded |
| Challenges.ConsumedOnlyAfterApproval | app/devices.py:547-592 | Every consumption follows an approval by a session of the same user, both strictly inside the five minutes |
| Challenges.OnePendingPerDevice | app/devices.py:407-440 | No user ever has two pending requests for one device |
| DeviceRequests.FiledExactlyWhen | app/devices.py:327-456 | A request is filed if and only if the peer is known and within its limit, the user exists, the password is right, the account is not locked, both flags and the hold are down, the device is not yet trusted from that address, and no pending request is valid or locked; the row carries user, device, address and five minutes |
| DeviceRequests.ReusedExactlyWhen | app/devices.py:407-425 | A valid pending request is answered instead of a new one, and a locked one is waited for, exactly under the same conditions |
| DeviceRequests.RequestRoutes | app/devices.py:365-405 | Every other caller is refused, and a trusted device is answered as such exactly for a caller that passes all checks; neither changes a request |
| DeviceRequests.RefusedAs | app/devices.py:327-390 | The refusals in order: 400, 429, 401, 423, 409 |
| DeviceRequests.ApprovalAnswers | app/devices.py:467-535 | What approving answers and writes, case by case and in order |
| OtpAttempts.CompletionChecks | app/devices.py:547-585 | What the checks of a completion answer and write, case by case and in order |
| OtpAttempts.GateAnswered | app/devices.py:586-612 | A hold fails the request; otherwise it is used up by the session it gives |
| OtpAttempts.CompletionStamps | app/devices.py:586-612 | A completed device login stamps its account and changes nothing else about it; a held one leaves it alone |
| OtpAttempts.ClosedIsFinal | app/devices.py:553-561 | A request failed or expired before its use never gives a session, in any continuation |
| Provenance.EverySessionHasItsCause | app/auth.py:578-672 | In every reachable state a session comes from one step of the run that was a login within the limit, with the right password, an account not locked, both MFA flags down and no hold, or belongs to one completed OTP challenge, or one approved and consumed trusted-device request, of the same user |
| Provenance.OneSessionPerTransaction | app/auth.py:781-903 | Under every interleaving that respects the row locks no transaction yields two sessions, and each completed or consumed one yields exactly one |
| Provenance.DirectLoginExactlyWhen | app/auth.py:578-672 | A login opens a session on the spot exactly within the limit, with the right password, an account that is not locked, both MFA flags down and no gate hold |
| Provenance.ChallengeExactlyWhen | app/auth.py:583-663 | Otherwise it opens an OTP challenge, with the right kind, binding and expiry and no session |
| Accounts.LoginReplies | app/auth.py:490-576 | A login is answered 429, 401 or 423 exactly over the limit, without user or right password, and for a locked account, in this order, and else let in |
| Accounts.LoginWrites | app/auth.py:522-590 | What a login writes to the account in each case, and that it touches no other |
| Accounts.FailuresInARow | app/auth.py:541-578 | Over every run failed_login_count is the number of wrong passwords since the last login that was let in |
| Accounts.RegisteredUserLogsIn | app/auth.py:326-378 | A new account is active with the base role alone and no flag, and its first right-password login gets a session |
| Provenance.ApprovedExactlyWhen | app/devices.py:467-535 | An approval takes effect exactly for a valid request of the session's own user from the session's own address |
| Provenance.GateReachedExactlyWhen | app/devices.py:556-585 | A completion reaches the gate, holding the row, exactly when every check of request, address, device and account passes |
| Provenance.AddsExactlyWhen | app/auth.py:675-750 | In every state a step opens a session for a user in exactly three ways, a login that needs no more, an accepted code, or a completion the gate lets through, and the session's origin says which |
| Provenance.LockedAccountExactlyWhen | app/auth.py:781-903 | For a locked account a step opens a session exactly when it accepts a code of an earlier challenge or finishes a completion already at the gate, and no token authenticates as that user meanwhile |
| Provenance.OnlyOtpExactlyWhen | app/devices.py:580-592 | With detection_mfa_once set: in every continuation, for as long as the flag stays up, every session the user gets comes from an OTP - if and only if no completion of the user is at the gate when the run starts |
| Provenance.FlagHolds | app/devices.py:580-592 | The inductive half over all runs: every such session is an OTP's, also after one-time or persistent challenges were verified, and the gate stays clear |
| Provenance.FlaggedStepExactlyWhen | app/auth.py:886-903 | While the flag is up a step opens a session for the user exactly when it accepts an OTP or finishes a completion that was at the gate |
| Provenance.GateOpens | app/devices.py:586-593 | A completion at the gate opens its session when the gate does not hold it, whatever the flags say by then |
| Provenance.FlagClearedExactlyWhen | app/auth.py:892-894 | Only the commit of an accepted one-time code clears the flag |
| Provenance.FlagLosesRace | app/devices.py:580-592 | A run in which the flag is raised while the gate is asked and the completion still opens a live session |
| Provenance.StepKeepsLinks | app/auth.py:886-903 | Each step keeps sessions and transactions paired |
| KeyedActions.RepeatsAreIdle | app/internal_actions.py:101-139 | Exactly once: any run ends in the same state as the run without the later deliveries of each (action, user, key) |
| KeyedActions.RepeatChangesNothing | app/internal_actions.py:105-139 | A repeat answers already applied with no sessions revoked and changes nothing |
| KeyedActions.RefusedDeliveryIsNoDelivery | app/internal_actions.py:94-99 | A delivery refused because the user does not exist yet does not count as the first |
| KeyedActions.OneRecordPerKey | app/internal_actions.py:105-216 | As long as no un-keyed action that is carried out imitates the key on the same action and user, a keyed action has exactly one audit row once delivered to an existing user and none before |
| KeyedActions.KeyedDeliveryIdleExactlyWhen | app/internal_actions.py:101-139 | After any run a keyed delivery to an existing user changes nothing if and only if the action was on record under the key's text before or an earlier step was the same action on that user with that text as its written reason; otherwise it adds its one audit row |
| KeyedActions.RecordedExactlyWhen | app/internal_actions.py:105-216 | An action is on record after a run exactly if it was before or some step, delivered when the user existed, wrote it |
| KeyedActions.ImitatedKeySuppresses | app/internal_actions.py:213 | In particular an un-keyed action whose free text imitates a key makes the first keyed delivery a repeat |
| KeyedActions.ActionTakesHold | app/internal_actions.py:156-199 | An action carried out leaves the user without live sessions and with the flag or lock it sets, touches no other user, and reports how many sessions it ended |
| Accounts.AnsweredAs | app/internal_actions.py:101-223 | A delivery is answered as already applied exactly when it is a repeat or the action was in effect before, and reports the number of sessions it ended, in the reply and in its audit row |
| Accounts.ActionWrites | app/internal_actions.py:168-199 | What each of the four actions writes to the account, and that it touches no other |
| Iam.AlwaysAnAdmin | app/iam.py:96-109 | From a state with an active SECURITY_ADMIN every run without a lock by Detection keeps one |
| Iam.StepKeepsAdmin | app/iam.py:184-234 | The same for each single step |
| Iam.DetectionLocksLastAdminExactlyWhen | app/internal_actions.py:105-192 | A lock by Detection leaves no administrator if and only if its user is the only one and the delivery does not repeat a recorded one |
| Iam.LockGuardRefusesTooMuchExactlyWhen | app/iam.py:215-219 | A lock that would leave an administrator is refused exactly when the target is not one and there is a single administrator |
| Iam.GuardExactForAdmins | app/iam.py:96-109 | For an administrator's account both guards refuse exactly when no other active administrator exists |
| Accounts.AssignMeaning | app/iam.py:137-169 | Assigning adds exactly that role, ends exactly the user's sessions and appends an audit row with cause and number; a role already held changes nothing |
| Accounts.RevokeMeaning | app/iam.py:172-205 | Removing takes exactly that role away, with the same effects, or answers 422, 404 or 409, in this order |
| Accounts.AssignThenRevoke | app/iam.py:137-205 | A role assigned and removed again leaves the account as it was |
| Accounts.LockMeaning | app/iam.py:208-235 | Locking writes status and instant, ends the sessions, and changes nothing on a locked account |
| Accounts.UnlockMeaning | app/iam.py:238-262 | Unlocking makes the account active and touches no session |
| Accounts.LockBarsLogin | app/iam.py:208-262 | A locked account is refused its right password with 423, and no longer after unlocking |
| Accounts.LockThenUnlock | app/iam.py:208-262 | An active account locked and unlocked again leaves every account as it was |
| Accounts.ToggleMeaning | app/iam.py:265-293 | Toggling writes the flag asked for and ends the sessions either way |
| Accounts.ToggleDecidesLogin | app/iam.py:265-293 | The next right-password login gets a challenge if MFA was required and a session if it was lifted |
| Accounts.LiveCountIsSize | app/iam.py:87-93 | The number reported is the number of the user's unrevoked sessions |
| CoreApp.App.Serve | app/auth.py:456-903 | Any request, routed to its handler, is a step of the service and keeps tokens, rows, locks and the pairing of sessions and transactions valid |
| CoreApp.App.CreateSession | app/auth.py:675-750 | The session, its tokens, last login and audit row are flushed as specified |
| CoreApp.App.GetAuthContext | app/authz.py:58-134 | Bearer authentication is the specified predicate |
| CoreApp.App.RefreshToken | app/auth.py:926-978 | In place: the refresh step and its refusals |
| CoreApp.App.LogoutCurrent | app/auth.py:981-1006 | In place: the log-out step |
| CoreApp.App.RevokeSessions | app/internal_actions.py:156-166 | The bulk update and its row count |
| CoreApp.App.LogoutEverywhere | app/auth.py:1009-1032 | In place: log-out everywhere |
| CoreApp.App.RevokeOne | app/auth.py:1094-1130 | In place: revoking one of the caller's own sessions |
| CoreApp.App.RegisterUser | app/auth.py:326-378 | In place: registration |
| CoreApp.App.CountRequest | app/auth.py:479-520 | In place: the request counter |
| CoreApp.App.LoginUser | app/auth.py:456-672 | In place: the login step with every refusal, the challenge and the direct session |
| CoreApp.App.VerifyBegin | app/auth.py:771-774 | The handler notes its instant |
| CoreApp.App.VerifyAcquire | app/auth.py:781-795 | Waiting for and reading the locked row |
| CoreApp.App.VerifyCommit | app/auth.py:797-916 | In place: everything done under the lock, up to the commit; what that is, miss by miss and answer by answer, is OtpAttempts.MissesAreCounted and VerifyReplies |
| CoreApp.App.ConsumeCode | app/auth.py:886-903 | In place: using up the code, clearing the one-time flag, opening the session |
| CoreApp.App.RequestTrust | app/devices.py:307-456 | In place: filing a trusted-device request; exactly when, and with what in it, is DeviceRequests.FiledExactlyWhen |
| CoreApp.App.ApproveDevice | app/devices.py:459-535 | In place: approving it and trusting the device |
| CoreApp.App.CompleteBegin | app/devices.py:538-547 | The completing handler arrives |
| CoreApp.App.CompleteAcquire | app/devices.py:547-585 | In place: the checks under the lock, up to the gate |
| CoreApp.App.CompleteCommit | app/devices.py:586-612 | In place: consuming the request and opening the session, or failing it |
| CoreApp.App.Enforce | app/internal_actions.py:80-223 | In place: deduplication, the action and the audit row |
| CoreApp.App.CarryOut | app/internal_actions.py:168-199 | In place: what each of the four actions does to the account and its sessions |
| CoreApp.App.GuardLastActiveAdmin | app/iam.py:96-109 | The guard's answer |
| CoreApp.App.Assign | app/iam.py:137-169 | In place: assigning a role |
| CoreApp.App.Unassign | app/iam.py:172-205 | In place: removing a role |
| CoreApp.App.Lock | app/iam.py:208-235 | In place: locking an account |
| CoreApp.App.Unlock | app/iam.py:238-262 | In place: unlocking it |
| CoreApp.App.SetMfa | app/iam.py:265-293 | In place: toggling the MFA requirement |
| Analytics.SeriesConserves | app/detection_analytics.py:783-911 | The zero-filled bucket counts add up to the section total |
| Analytics.BreakdownConserves | app/detection_analytics.py:783-911 | In every bucket the counts per category and the count of rows without one add up to the bucket total |
| Analytics.JoinCountsOnce | app/detection_analytics.py:422-428 | Counting through an outer join is exact if and only if each row has at most one match |
| Analytics.BucketOf | app/core_analytics.py:566-658 | Every instant of the window lies in exactly one bucket of the grid |
| Analytics.BuildSeries | app/manager.py:935-1006 | Grouping the rows and filling the grid gives the specified series |
| Analytics.SeriesMeaning | app/detection_analytics.py:783-911 | Each point is the number of rows of the window in its bucket, which begins on a full hour or at midnight and lasts one |
| Analytics.TotalIsSize | app/core_analytics.py:566-658 | The total is the number of rows with start <= at < end |
| Analytics.OnlyMeaning | app/detection_analytics.py:783-911 | A category's rows are all of its own and no others |
| Analytics.GridShape | app/detection_analytics.py:220-244 | The grid is aligned, evenly spaced, starts at the bucket of the start and reaches the end |
| Analytics.BucketStarts | app/core_analytics.py:160-184 | The cursor loop ends with exactly ceil((end - floor(start)) / step) starts |
| Analytics.BucketCount | app/manager.py:573-584 | The counting loop agrees with the length of that grid |
| Analytics.ManagerWindow | app/manager.py:601-644 | The manager's validation is the specified resolution |
| Analytics.ProviderWindow | app/detection_analytics.py:247-284 | The providers' validation is the same resolution with a 24-hour default |
| Analytics.AcceptedExactlyWhen | app/manager.py:601-644 | For a known bucket name a window is accepted if and only if it is not empty and fits the bucket limit |
| Analytics.WindowMeaning | app/manager.py:601-644 | By the hour up to 400 from the start's own hour, by the day up to 366 from its own day; left open, by the hour up to 72 hours and by the day beyond; other names are refused |
| Analytics.ForwardedWindowAccepted | app/manager.py:1551-1600 | Every window the manager accepts is accepted unchanged by both providers |

## Left out

- HTTP routing, request validation, CORS, e-mail delivery and logging; requests reach the model parsed.
- Password and OTP hashing, token and OTP generation, SHA-256: a password check is an input, an OTP matches when equal, tokens are fresh and their hashes injective.
- ML inference and model loading: an outcome that is a score in [0, 1], unavailable or an error.
- Rounding: scores and features are exact; the 4-decimal columns, floating-point rounding, NaN and infinity are not modelled. The one exception that conversion to float raises, on an oversized integer, is.
- SQL dialects, ORM mapping and engine caching; only the uniqueness constraints and row locks are kept.
- Liveness: nothing says that a pending attempt is eventually processed; the code does not recover one.
- Concurrent recovery sweeps: the sweep takes no lock, so one sweep at a time is assumed, and its query may return failed rows in any order.
- Races on rows the handlers do not lock: the first rate-limit row, concurrent refreshes, account flags during login, concurrent acknowledgements. Those handlers are single steps.
- A failed commit of a single-step Core handler, or a login that the gate's answer breaks, leaves no trace and is therefore not a separate step; a crash of a locking handler is.
- Display data: reasons, notes, user agents, device names, last activity, and which value was matched by a rule that fired; that looking it up can raise is modelled.
- A rejected rule whose name is a list or object is logged under that name, which the database driver may refuse at the commit; that is one of the commit outcomes left open.
- How Python prints a rule name that is not text is a parameter of the policy.
- Role checks per endpoint, list and pagination endpoints, dashboard shaping and KPI formatting.
- The device pages: adding, listing and removing trusted devices is one step that may change the device table arbitrarily; its audit rows are left out.
- Registration's format checks, and the lookup of a role in the roles table.
- Assignee ids are UUIDs in their usual text, with or without hyphens and braces; the urn spelling and the forms that only integer parsing lets through (underscores, a prefix, blanks) are not covered.
- A peer label that is not an IP address is kept with a session and a counter, as SQLite does; PostgreSQL would refuse it. Counters merge the spellings of an address, as PostgreSQL does; SQLite would not.
- JSON nested beyond the interpreter's recursion limit, in a policy or in the gate's answer.
- Calendar limits: instants are unbounded, so date overflow at the ends of the calendar does not occur.
- Iam.AlwaysAnAdmin: excludes Detection's LOCK_USER, which does not use the guard.
- KeyedActions.OneRecordPerKey: assumes that no un-keyed action on the same user imitates the key, because the property is false otherwise (KeyedActions.KeyedDeliveryIdleExactlyWhen).
- Enforcement.AtMostOneActionPerAttempt: assumes that nobody but Detection writes the attempt's keys, be it as a key or as free text.
- LoginLimits.ChecksAreBounded: counts requests that commit; a login that ends as a server error leaves the counter where it was.
- Gate.GateNeverStricter: takes from the caller that the user's rows with the login's fingerprint carry its agent, which Gate.MaterialDetermines gives for headers without separators.
- Gate.GateAgreesExactlyWhen: compares gate and scoring on the same tables and ML outcome; rows written between the two, and an ML service that changes its answer, can make them differ as well.
