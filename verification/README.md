# The Office broker: a verified model of its governance

The broker decides, on every agent call, whether the call may be made. This project models the
tables it decides over, the guarded functions that change them, and the decision itself, and
proves what holds of every run:

- certifications, instructions, simulation declarations and grants (`Tables`, `Certification`,
  `Basis`, `Simulation`, `Grants`, `Instructions`, `Versions`), the state machine they form
  (`Governance`), what every certified row and every call let through rests on (`Authority`), the
  references grants carry (`References`), concrete tables on which an expectation fails (`Witnesses`),
  and the tables as the broker updates them in place (`Broker`);
- the two-level token bucket and the throttle a manifest violation draws (`Limits`, `Manifest`);
- escalations, delivered and answered under interleaving (`Escalation`), and the human roles that
  decide who may do any of this (`Humans`);
- the budget ladder (`Budget`).

Each statement or commit of the broker is one atomic step over maps and sequences. Where the broker
updates in place there is a class whose methods are proved against the specification functions, and
the theorems are about those functions. What each operation writes and when it is refused is stated
besides in the stored columns themselves, by lemmas named `...TakesEffect`, `...Iff` and `...IsTrue`. `dafny verify dfyconfig.toml` checks everything.

## What the proofs turned up

- **Republishing decertifies agents, not departments.** `certify_for_simulation` documents that
  republishing decertifies, as for a tested certification; `recompute_staleness` compares no hash
  for Unit B, and no run of authoring changes what it makes of a department's row
  (`Governance.RepublishingSparesDepartments`, beside `RepublishingDecertifiesAgents`).
- **A roster move breaks references.** Nothing re-points a grant when its agent changes department.
  A move keeps every reference true exactly when each live grant of the agent is untied
  (`References.MoveKeepsRefsIff`, with `MovingBreaksReferences` as the witness).
- **A retired grant's references can still be rewritten**, by the ladder re-applying that very grant
  and by nothing else (`References.StepKeepsRetired`, witness `ReapplyingRewritesHistory`).
- **Retiring a ladder grant is final for the ladder**: its id is derived from what it grants, so the
  upsert keeps finding the retired row, and Phase 0 steps over it only where a revocation covers the
  call (`References.RetiringALadderGrantIsFinal`).
- **The guards of `record_result` stand in for the table's CHECK constraints except for two
  families**: an attestation attached to Unit A or to a bootstrap, and evidence attached to an
  attestation or a bootstrap, pass the guards and are refused by the table
  (`Certification.GuardsCoverChecks`, witnesses `GuardsMissAnAttestedAgent` and
  `GuardsMissEvidenceBesideAnAttestation`, the second being what the verdict sweep sends).
- **A department's failed exam blocks its simulation certification.** The upsert of
  `certify_for_simulation` does not clear the evidence of the exam it replaces, and a constraint
  allows evidence on tested rows alone, so an otherwise permitted certification is refused exactly
  when the standing row carries evidence (`Certification.EvidenceBlocksSimulation`), in every state
  until another answer replaces it (`Governance.EvidenceBlocksUntilAnswered`, witness
  `Witnesses.AFailedExamBlocksSimulation`).
- **An answer does not always replace its row.** A trigger refuses to certify an agent on text that
  is not its module's live text, so a PASS that arrives after a republication leaves the old row
  standing (`Governance.AnswersReplaceIff`, witness `Witnesses.ALatePassIsRefused`). Hence an agent
  certified on other than live text means its module was authored again since
  (`Governance.OffTextOnlyByAuthoring`).
- **The text a department's basis is hashed from determines its members** for module ids that hold
  no line end (`Basis.MaterialIdentifies`), and not otherwise (`Basis.LineEndsCollide`).
- **Read by its subject, a role event for the empty venture name says every venture**, so subjects
  match the roles held exactly when none is held under that name (`Humans.SubjectsMatchRolesIff`).
- **Reversing a hard cap is for good.** Nothing clears `hard_cap_reversed_at`, so the monthly cap
  halts no call in any later month either (`Budget.ReversalIsForGood`).
- **An operational escalation can never be received**: it is routed to a title and no human
  (`Escalation.OverdueRulesAgree`).
- **Two version comparisons agree exactly on pinned versions**; off them one refuses and the other
  pads with zeros (`Versions.ComparisonsAgree`, `Versions.OnlyOneRefuses`).

## Model

| member | source | states |
|---|---|---|
| Grants.LadderIsOneCondition | broker/grants.py:267-406 | the refusal ladder lets a row through iff the newest live grant of the key is activated, tiered and referenced, both units are certified and standing, the model is named, and agent, module and credential are in order; the tier granted is auto-execute iff planned and certified both are and suggest iff either is, and the answer is marked simulation-only iff the department's row is a simulation's |
| Grants.RefusalsNameTheFirstFault | broker/grants.py:264-386 | a row with any of the ten faults is refused for the most basic one it has, in the ladder's order, and an uncertified one with the state of each unit |
| Grants.NoRowSaysWhy | broker/grants.py:224-262 | a key with no row is refused as excluded, unregistered or not granted, in that order |
| Grants.ResolvesIff | broker/grants.py:131-194 | the query's row selection and the ladder together admit a call iff some newest live grant of its key is authorized |
| Grants.TopIsNewestLive | broker/grants.py:186-193 | where a key has any live grant, the rows the ordering may return are exactly its newest live ones, whatever the retired ones are dated |
| Grants.RefusedOnlyByTies | broker/grants.py:192-193 | an authorized key is refused only when another live grant was issued at the same instant |
| Grants.SupersededMeansNoneLive | broker/grants.py:186-191 | a call is told its grant was superseded only when every grant of the key has been |
| Broker.GovernanceTables.SelectRow | broker/grants.py:182-193 | returns a first row of the ordering, or none iff the joins keep no grant of the key |
| Broker.GovernanceTables.Ladder | broker/grants.py:264-406 | the rungs, read in the source's order, give the specified decision |
| Broker.GovernanceTables.ResolveGrant | broker/grants.py:197-406 | succeeds only when authorized, at the lesser of the planned and the certified tier and marked simulation-only iff the department's row in force names a declaration; fails only when a returnable row is not authorized or no row exists, and an authorized key fails only by a tie |
| Authority.CertifiedIff | broker/certification.py:466-815 | over every run of every act a row is certified iff some accepted PASS or simulation certification wrote it, nothing has replaced it since and no sweep has found it outrun |
| Authority.CallsAreEarned | broker/grants.py:197-406 | from the empty tables, whatever is done to them, a call let through at a certified tier has behind it an accepted PASS of that agent on that module at that tier and on its row's text, unreplaced and not outrun since, and behind its department a PASS, or a simulation certification iff the answer is marked so |
| Authority.RestingIsCertified | broker/certification.py:670-728 | a row that rests on an act is certified and says, column by column, what the act reported |
| Authority.SimulationLetsCallsThrough | broker/certification.py:966-1149 | as soon as a simulation certification succeeds, each active and certified member of the department with an activated newest live grant on a usable module is let through, in whichever venture, marked simulation-only |
| Authority.MarkedIffOnADeclaration | broker/grants.py:155-160 | in sound tables an answer is marked simulation-only iff the department's row in force names a declaration, and that declaration has not been left |
| Broker.GovernanceTables.RecordResult | broker/certification.py:466-815 | refusals, the guards' and then the table's own, change nothing; otherwise the new tables are those `Certification.RecordTakesEffect` describes and the returned state is the row in force |
| Certification.RecordTakesEffect | broker/certification.py:637-815 | an accepted result that finds no row, or answers, leaves a row with the state its verdict means and the reported tier, hash, version, rubric, score, threshold, evidence and model, under the key's standing id and issue date, and repoints its department's live grants; one that is silent over a standing row leaves everything alone |
| Certification.RecordOkIff | broker/certification.py:466-585 | a result is accepted iff the guards pass it and, unless it is silent over a standing row, a certified agent's text is live, the attestation and evidence may stand where they are and the agent is known |
| Certification.ReportPassesIff | broker/certification.py:466-585 | the guards, fact by fact: who attests, with what reason, which model and settings, on what basis |
| Certification.RecordRefusalIsTrue | broker/certification.py:466-585 | each refusal of a report names a fault the report has |
| Certification.GuardsCoverChecks | broker/certification.py:466-585 | what passes the guards passes every CHECK constraint between columns iff it carries an attestation only as a Unit B verdict of SimForge's and evidence only as a verdict of SimForge's with no attestation |
| Certification.GuardsMissEvidenceBesideAnAttestation | db/versions/0061_a_certification_records_its_evidence.py:86-91 | a concrete attested PASS with evidence that no guard refuses and the table does |
| Certification.GuardsMissAnAttestedAgent | db/versions/0050_a_certification_records_its_basis.py:186-196 | a concrete report that no guard refuses and the table does |
| Governance.NonAnswersAreInvisible | broker/certification.py:637-663 | for every run of all acts, striking out each TIMEOUT, IN_PROGRESS or NOT_RUN that met a standing row leaves every table as it was |
| Governance.LastAnswerRules | broker/certification.py:82-130 | under `record_result` alone a key's row is that of the last answer its tables accepted, PROVISIONAL and REVOKED included, or of the first accepted result if nothing answered, under the first row's id and issue date |
| Governance.LastAnswerIsExact | broker/certification.py:637-663 | the last answer is accepted by the tables it meets and none after it is |
| Governance.FirstResultIsExact | broker/certification.py:634-636 | the first result is accepted by the tables it meets and none before it is |
| Governance.RecordWrites | broker/certification.py:637-725 | a result writes iff guards, trigger, constraints and agent reference accept it over the tables it meets and it either answers or finds no row; otherwise no certification changes |
| Governance.AnswersReplaceIff | db/versions/0038_a_bootstrap_hash_names_a_live_instruction.py:103-141 | an answer that guards and constraints accept replaces its row, unless it certifies an agent on other text than its module's live text; that is refused and the row stands |
| Governance.OffTextOnlyByAuthoring | db/versions/0038_a_bootstrap_hash_names_a_live_instruction.py:103-141 | over every run an agent certified on other than its module's live text implies the module was authored after the row was last written |
| Witnesses.ALatePassIsRefused | db/versions/0038_a_bootstrap_hash_names_a_live_instruction.py:121-137 | concrete tables on which a PASS on replaced text is refused |
| Governance.RowsComeFromResults | broker/certification.py:634-636 | under `record_result` alone a key has a row iff it began with one or the tables accepted some result for it |
| Governance.RowsStaySound | broker/certification.py:564-585 | over every run of all acts each row meets every CHECK constraint between columns, is attributed to its basis, has an id of its own and names only declarations that exist |
| Governance.ReachableIsSound | broker/certification.py:564-585 | the empty tables are sound, so every state a run reaches from them is |
| Governance.UnearnedRowsSaySo | broker/certification.py:448-464 | in every reachable state a row has no verdict iff its basis is bootstrap or simulation, names a declaration iff simulation, and a tested row that confers authority names model, digest and settings |
| Governance.TwoRungsAreUnreachable | broker/grants.py:339-386 | in every reachable state resolving never meets a certified unit that names no model or carries no tier |
| Broker.GovernanceTables.RepointDepartmentGrants | broker/certification.py:869-883 | every live grant of the department on the Forge names the certification, no other grant changes, and the count is the references that moved |
| Broker.GovernanceTables.CertifyForSimulation | broker/certification.py:1026-1149 | refused by the first unmet condition, or by the table's constraints, with nothing written; otherwise certification and references land together, as `Certification.CertifyingTakesEffect` describes, and the count is the references moved |
| Certification.CertifyingTakesEffect | broker/certification.py:1067-1149 | a successful certification leaves the department's row certified at suggest on the Forge's registered version, the hash of its members' live instructions and the venture's current declaration, with no verdict, model or score and not void, keeping a standing row's id, rubric and other unlisted columns, and every live grant of the department names it |
| Certification.PermittedIff | broker/certification.py:1026-1066 | permitted iff there is a reason, an active founder who is a person, a live declaration, at least one live grant, an instruction in force for every member and a registered Forge |
| Certification.CertifyRefusalIsTrue | broker/certification.py:1026-1066 | each refusal to certify names something that is so |
| Certification.EvidenceBlocksSimulation | broker/certification.py:1078-1093 | an otherwise permitted simulation certification is refused by the table iff the department's standing row carries evidence |
| Governance.EvidenceBlocksUntilAnswered | broker/certification.py:1078-1093 | over every run a department whose row carries evidence is refused simulation certification in every state until an answer for it is accepted |
| Witnesses.AFailedExamBlocksSimulation | db/versions/0061_a_certification_records_its_evidence.py:86-91 | concrete tables on which a simulation certification succeeds, and is refused after one failed exam with evidence |
| Broker.GovernanceTables.ComposeBasis | broker/certification.py:1054-1065 | the composite over every member's instruction in force, refused iff one has none |
| Basis.MaterialIdentifies | broker/simforge.py:685-688 | for fixed-width digests under ids without a line end, the sorted and joined text is equal iff the mapping is |
| Basis.LineEndsCollide | broker/simforge.py:685-688 | for any two ids and digests there is another mapping, under one id with a line end, of the same text |
| Basis.MaterialInFigures | broker/simforge.py:685-688 | the text spelled out for one member and for two |
| Text.SplitUndoesJoin | broker/simforge.py:685-688 | splitting a joined text gives back the pieces where none holds the separator |
| Certification.BasisIdentifiesItsMembers | broker/simforge.py:671-689 | two department bases are equal iff they have the same members with the same instruction hashes, where hashes are spelled at fixed width and apart and ids hold no line end |
| Governance.LeavingVoidsExactly | broker/simulation.py:239-253 | leaving voids exactly the rows that name the declaration being left |
| Governance.VoidUntilReplaced | broker/certification.py:902-915 | over every run a void row stays void, naming the same declaration, until an answer or a new simulation certification replaces it |
| Governance.ReplacingEndsVoid | broker/certification.py:695-717 | after any one act a void row is still void iff the act did not replace it |
| Governance.LeavingRefusesUntilReplaced | broker/grants.py:308-327 | once a venture leaves, every call through a department certified under that declaration is refused in every later state until that row is replaced, declaring simulation again included |
| Governance.DeclarationsStand | broker/simulation.py:246-253 | over every run a declaration keeps who, when and why, and having been left never un-happens |
| Broker.GovernanceTables.CurrentDeclaration | broker/simulation.py:135-148 | the venture's one live declaration, or none iff there is none |
| Broker.GovernanceTables.Declare | broker/simulation.py:169-212 | refused blank, by a fixture or twice; otherwise exactly one live declaration is added |
| Broker.GovernanceTables.Leave | broker/simulation.py:215-262 | refused blank, by a fixture or outside simulation; otherwise the current declaration and no other is left |
| Simulation.DeclaringTakesEffect | broker/simulation.py:169-212 | declared iff by a person, with a reason and where nothing is declared, and then one row says who, when and why |
| Simulation.LeavingTakesEffect | broker/simulation.py:215-262 | left iff by a person, with a reason and where something is declared, and then that one row says who, when and why |
| Certification.SweepLeavesTheCurrent | broker/certification.py:1396-1441 | after a sweep of a Forge its certified rows are exactly those that were certified and match the text and version live now; others change in state alone |
| Certification.SweepTakesEffect | broker/certification.py:1396-1441 | what a sweep, of a Forge or of one module of it, makes of each row: off its live text an agent falls to its instructions, off the Forge's version any row falls to the Forge, the rest stand |
| Certification.SweepIsIdempotent | broker/certification.py:1417-1443 | a second sweep at any later time changes nothing |
| Certification.SweepRefusesIff | broker/certification.py:1427-1443 | a sweep fails, writing nothing, iff some row whose text is current must be compared and it or the Forge is not on a pinned version |
| Broker.GovernanceTables.FindStale | broker/certification.py:1417-1431 | finds exactly the rows that fall and what each becomes, refusing iff one cannot be read |
| Broker.GovernanceTables.RecomputeStaleness | broker/certification.py:1365-1443 | all or nothing; the ids returned are exactly the rows changed, each once |
| Governance.RepublishingDecertifiesAgents | broker/certification.py:1424-1426 | publishing new text makes every agent certified on another text of that module stale at the next sweep that runs |
| Governance.RepublishingSparesDepartments | broker/certification.py:1390-1394 | no run of authoring changes what a sweep makes of a Unit B row |
| References.ReachableReferencesFollow | broker/certification.py:822-867 | the empty tables' references are true, so every state reached from them without a roster move has true ones |
| References.ReferencesFollow | broker/certification.py:822-867 | in every state reached without a roster move each live grant names its department's certification in force, and none while there is none |
| References.MoveKeepsRefsIff | broker/sync_roster.py:251-261 | a move keeps all references true iff every live grant of the agent is untied |
| References.MovingBreaksReferences | broker/sync_roster.py:251-261 | a sound state in which one move leaves a live grant naming the wrong department's certification |
| References.UnitBWritesHeal | broker/certification.py:818-883 | the next Unit B write for a named department, a result's or a simulation certification's, puts each of its live grants right, whatever they named |
| References.RetirementStands | broker/grants.py:508-528 | over every run a retired grant keeps its date, and its references unless the ladder re-applies that very grant |
| References.StepKeepsRetired | generators/runtime_config.py:303-307 | one act leaves a retired grant's references alone iff it is not the ladder re-applying that grant and finding them changed |
| References.ReapplyingRewritesHistory | generators/runtime_config.py:303-307 | a retired grant given a reference it never had |
| References.RetiringALadderGrantIsFinal | generators/runtime_config.py:248-307 | with the ladder's grant of a key retired and no other live, nothing resolves for the key in any later state unless Phase 0 issues a grant over a live revocation |
| References.DeactivatedUntilGateEleven | broker/grants.py:605-617 | a venture with no active grant resolves nothing in any later state until Gate 11 runs for it or Phase 0 issues a grant in it |
| References.GateElevenAgreesWithTheResolver | broker/provisioning.py:2861-2913 | in every state reached without a roster move Gate 11, reading through references, activates a grant iff the resolver, reading through keys, would then admit its holder |
| References.GateElevenTakesEffect | broker/provisioning.py:2861-2913 | Gate 11 dates exactly the venture's uncovered, planned, live and not yet active grants of active agents whose references name one certified row of each unit, and touches nothing else |
| Broker.GovernanceTables.Retire | broker/grants.py:482-528 | every named grant exists, is live and is the actor's to retire, and all are retired, or nothing is written |
| Grants.RetiringTakesEffect | broker/grants.py:482-528 | retired iff there is a reason, some grants are named, all of them exist and are live, and the actor is an active person with a role in the venture of each; then exactly those are retired as of now |
| Grants.RetireRefusalIsTrue | broker/grants.py:482-524 | each refusal to retire names something that is so |
| Grants.LadderTakesEffect | generators/runtime_config.py:248-307 | the ladder writes the one grant of a key, tier and references fresh, inactive if new and with its dates kept if not |
| Grants.BootstrapTakesEffect | broker/bootstrap_phase0.py:619-632 | Phase 0 writes one new active grant on two recorded certifications, over no earlier row unless a revocation covers the call |
| Grants.ReplacingTakesEffect | generators/runtime_config.py:340-362 | a Phase 0 grant is retired iff a live ladder grant of the same key stands beside it |
| Broker.GovernanceTables.Deactivate | broker/grants.py:619-645 | clears exactly the venture's activations and counts them; refused with none to clear |
| Grants.DeactivatingTakesEffect | broker/grants.py:605-645 | deactivated iff there is a reason, a role in the venture and something active; then nothing of the venture's is active and nothing else changed |
| Instructions.HistoriesAreChains | broker/instructions.py:137-158 | every history authoring builds from nothing has contiguous half-open intervals with exactly the last open |
| Instructions.NeverTwoInForce | broker/certification.py:276-280 | no moment has two rows of one module in force |
| Instructions.SomeRowInForce | broker/certification.py:276-280 | from the first authoring on, every moment has one |
| Instructions.ReconstructionIsExact | broker/certification.py:256-291 | on every authored history the reconstruction answers v iff the row live at that moment carries the hash and v, and never meets two |
| Instructions.ThePastStands | broker/certification.py:208-255 | authoring now changes no answer about an earlier moment |
| Instructions.LiveIsTheLast | broker/instructions.py:172-195 | the live row of a history is its last |
| Instructions.InstructionTable.Author | broker/instructions.py:129-169 | refused for the first objection, an unregistered module's included, with nothing written; otherwise the live row is closed and the new one opened at one instant |
| Instructions.PublishedIff | broker/instructions.py:89-136 | published iff all eight sections are there and not empty, every-patch sensitivity is explained, the version is new and the module known |
| Instructions.AuthoringTakesEffect | broker/instructions.py:137-158 | the new row carries the draft's own version, Forge version, sensitivity and text hash, and opens as the live row closes |
| Instructions.InstructionTable.ForgeApiVersionInForce | broker/certification.py:256-291 | the two filters in turn compute the reconstruction |
| Instructions.InstructionTable.DepartmentApiVersion | broker/certification.py:353-386 | answers v iff there are members and every one resolves to v, whatever their order; a disagreement names exactly the versions met |
| Versions.ComparisonsAgree | broker/instructions.py:388-409 | on pinned versions and every sensitivity the two independent comparisons agree |
| Versions.OnlyOneRefuses | broker/certification.py:179-184 | the staleness check refuses iff a version is not pinned; the directory's comparison never does, with an input on which they part |
| Versions.FreshnessIsAnEquivalence | broker/certification.py:187-205 | freshness is reflexive exactly on pinned versions, symmetric and transitive, so a downgrade is as stale as the upgrade |
| Versions.StalenessIsMonotone | broker/certification.py:187-205 | fresh at a finer sensitivity is fresh at a coarser one |
| Versions.StaleAtItsDepth | broker/certification.py:187-205 | for every pair of releases each sensitivity compares exactly that many numbers |
| Versions.MovedAtItsDepth | broker/instructions.py:379-409 | the directory compares as far, to the minor number where no sensitivity is given, and reports what it compared |
| Versions.DirectoryIsLoose | broker/instructions.py:388-409 | the directory says nothing of a missing version, pads a short one and reads a piece that is no number as zero |
| Versions.PinnedIsThreeNumbers | broker/certification.py:179-184 | a version is pinned iff it is three runs of digits with a dot between |
| Text.StripIsExact | broker/certification.py:504 | stripping takes off blanks at both ends and nothing more |
| Text.SplitAt | broker/instructions.py:391-398 | splitting takes off exactly the piece before the first dot |
| Limits.RateBound | broker/limits.py:133-161 | in every window of every run, by any number of agents and across any reconfigurations, a bucket pays out at most the largest size it had plus the largest refill over the window |
| Limits.FixedRateBound | broker/limits.py:133-161 | in a window that does not reconfigure the bucket those are its own size and refill |
| Limits.WindowBound | broker/limits.py:51-86 | the same for any bound on size and rate in force, reconfigurations included |
| Limits.ThrottledRateBound | broker/limits.py:63-76 | in a window wholly inside a throttle the bound is at the throttled rate |
| Limits.TokensAreConserved | broker/limits.py:150-161 | what leaves a bucket over a run is one token per charged call: an agent's admitted calls and Forge refusals, a Forge's admitted calls |
| Limits.RefusalsAreInvisible | broker/limits.py:79-85 | striking every refused attempt on one unthrottled bucket leaves the same attempts admitted and the same tokens available |
| Limits.ForgeRefusalsAreInvisible | broker/limits.py:155-161 | over every run that reconfigures no Forge, leaving every Forge refusal unwritten changes the outcome of no call and what no bucket has available afterwards |
| Limits.ReachableTablesAreWellFormed | broker/limits.py:79-106 | from the empty table every run reaches a well-formed one in which no Forge is throttled |
| Limits.RefillComposes | broker/limits.py:69-76 | refilling in two steps is refilling once |
| Limits.RunKeepsWellFormed | broker/limits.py:79-81 | over every run tokens stay between nothing and the bucket's size and refills are never dated ahead |
| Limits.LimitsAreFixed | broker/limits.py:92-106 | ensuring, acquiring and throttling never resize, re-rate or drop a bucket |
| Limits.ThrottleOnlyTightens | broker/limits.py:173-193 | over every run a throttle factor never rises and its end never moves earlier |
| Limits.FactorIsTheHarshest | broker/limits.py:189-190 | a bucket's factor is the smallest its agent ever drew, expired throttles included |
| Limits.ThrottleHolds | broker/limits.py:176-193 | whether or not the bucket existed, until the time is up the agent refills at no more than that factor of its rate, whatever follows |
| Limits.RateLimiter.EnsureBucket | broker/limits.py:89-106 | creates a full bucket or leaves the existing one alone |
| Limits.RateLimiter.AcquireOne | broker/limits.py:109-130 | admits iff the size is at least one and the tokens plus elapsed time at the rate in force reach one, and writes the refilled row, dated and a token lighter if admitted, either way; a refusal says what there was |
| Limits.RateLimiter.Acquire | broker/limits.py:133-161 | with both buckets there, admits iff each has a token when the debits are made; an agent refusal rolls the debit back, a Forge refusal commits the agent's |
| Limits.AcquireTakesEffect | broker/limits.py:109-161 | in the stored columns: admitted iff agent and Forge each have size at least one and tokens plus elapsed time at the rate, throttled or not, of at least one; what each outcome writes |
| Limits.SpacedCallsAreNeverRefused | broker/limits.py:51-86 | over every run by any number of agents an unthrottled, unreconfigured bucket of size at least one refuses no call that comes at least 1/rate seconds after its last write |
| Limits.EnsureTakesEffect | broker/limits.py:89-106 | a new bucket is full, unthrottled and dated now |
| Limits.ThrottleTakesEffect | broker/limits.py:164-203 | the smaller factor and the later end, never before now; a new agent gets ten tokens at five a second |
| Limits.RateLimiter.ThrottleAgent | broker/limits.py:164-203 | the upsert, its two refused factors included |
| Manifest.ManifestGate.Check | broker/manifest.py:56-112 | required calls touch nothing; any other raises one incident and slows its agent, and only an undeclared one is refused |
| Manifest.ViolationSlows | broker/manifest.py:45-46 | for 900 seconds after a violation, whatever follows, the agent refills at no more than a tenth of its rate |
| Manifest.ViolationInFigures | broker/manifest.py:45-46 | a violation leaves the agent at a tenth of its rate or less for 900 seconds or more |
| Manifest.ViolationRateBound | broker/manifest.py:78-110 | calls charged to the agent in that time are at most its burst plus a tenth of its refill |
| Escalation.ClaimsAreConserved | broker/escalation.py:543-576 | on every interleaving, crashes included, each fact on record has exactly one event written, owed or lost |
| Escalation.EventsAreExactlyOnce | broker/escalation.py:595-638 | no fact ever has two events, and one nobody owes or lost has exactly one |
| Escalation.ReachableDesksConserve | broker/escalation.py:543-576 | from the empty tables every interleaving keeps that account |
| Escalation.ReachableDesksAreSound | broker/escalation.py:482-517 | and keeps every record sound and every event truthful, whatever becomes of the directory |
| Escalation.FactsStand | broker/escalation.py:547-551 | over every run what was raised, received, answered or expired never changes |
| Escalation.RecordsStaySound | broker/escalation.py:482-517 | on every interleaving, recipients and seat changing between raises, answered implies received, both by the routed human and never the raiser, in order; expiry is at its own deadline and before any receipt; and every event names who acted and what they said |
| Escalation.OverdueRulesAgree | broker/escalation.py:233-247 | on every reachable record the page's flag and the sweep's query agree, governance kinds never went operational, and operational ones are never received |
| Escalation.EscalationDesk.RaiseEscalation | broker/escalation.py:422-479 | refused before anything is written, or one record and one event |
| Escalation.EscalationDesk.RecordReceipt | broker/escalation.py:520-576 | the machine's read, update and event with nobody between; a repeat writes nothing |
| Escalation.EscalationDesk.RecordAnswer | broker/escalation.py:579-638 | the same for an answer, refused blank or before receipt |
| Escalation.EscalationDesk.ExpireOverdueEscalations | broker/deadlines.py:145-198 | expires exactly the deadlines passed and writes each its one event |
| Escalation.RoutedIff | broker/escalation.py:364-435 | where an escalation may go: governance to the human named for exactly that venture and department, operational to the seat's title, and the six kinds that may never go operational |
| Escalation.RaisingTakesEffect | broker/escalation.py:436-479 | what was raised is on record as put, by whom and when, with its one event |
| Escalation.DeskOpensIff | broker/escalation.py:482-517 | who may receive and answer, and when |
| Escalation.ReceivingTakesEffect | broker/escalation.py:520-576 | the first receipt stamps actor and moment and says so once; a repeat writes nothing |
| Escalation.AnsweringTakesEffect | broker/escalation.py:579-638 | the first answer after a receipt is recorded in its stripped words and said once |
| Escalation.SweepingTakesEffect | broker/deadlines.py:160-171 | a sweep expires, at the deadline, exactly what is past one unreceived, unanswered and unexpired |
| Escalation.RefusalsAreTrue | broker/escalation.py:482-517 | each refusal to raise, receive or answer names something that is so |
| Escalation.OverdueRulesPart | broker/escalation.py:233-247 | on any record at all the two overdue rules part iff it is overdue, answered and never received |
| Humans.AlwaysAnAdministrator | broker/humans.py:525-548 | from any state with an active administrator every run of guarded acts keeps one |
| Humans.NoFixtureIsEverIvan | broker/humans.py:263-285 | over every run no live founder role belongs to an account that is not a person's |
| Humans.EventsMatchRoles | broker/humans.py:287-307 | after every run granted less revoked events, by the events' venture column, is 1 for each role held live and 0 for every other |
| Humans.SubjectsMatchRolesIff | broker/humans.py:300-306 | by the events' subjects the same holds of a human and role iff the role is not held under the empty venture name |
| Humans.ReachableOffices | broker/humans.py:287-307 | from no accounts every run reaches one live row a role, matching events, founders who are people and traced roles |
| Humans.BootstrapMakesAnAdministrator | broker/__main__.py:124-149 | bootstrapping a founder makes an active administrator that every later run keeps |
| Humans.RolesHaveProvenance | broker/humans.py:471-501 | over every run each role row but the first has a granter who then held a role entitled to grant it |
| Humans.ProvenanceEndsAtBootstrap | broker/__main__.py:124-149 | following the granter back from any row, live or revoked, ends at the one self-grant |
| Humans.AuthorityFallsAlongChains | broker/humans.py:439-501 | along any such chain rank strictly rises toward the granter until the top role |
| Humans.HumanRegistry.Grant | broker/humans.py:205-307 | inserts or does nothing, refuses the top role to a fixture, and writes an event iff a row was inserted |
| Humans.HumanRegistry.Revoke | broker/humans.py:551-591 | revokes exactly the live rows of the role and says whether there were any, as `Humans.RevokeTakesEffect` describes |
| Humans.HumanRegistry.CountActiveAdministrators | broker/humans.py:504-522 | counts the active holders of the top role |
| Humans.HumanRegistry.AssertNotTheLastAdministrator | broker/humans.py:525-548 | refuses iff no other active administrator exists |
| Humans.HumanRegistry.SetRole | broker/app.py:3279-3320 | the guarded route is the specified act, refusals included |
| Humans.RevokeTakesEffect | broker/humans.py:551-591 | after an accepted revocation the role is not held live, each live row of it names the actor and the moment, every other row stands, and the log grows by one event iff it was held |
| Humans.GrantTakesEffect | broker/humans.py:205-307 | after an accepted grant the role is held live, by one new row and one event naming the actor iff it was not held before |
| Humans.RoutesOpenIff | broker/app.py:3279-3353 | when each guarded route is accepted, in roles and rows: who outranks what, nobody grants themselves, and no act removes the last administrator |
| Humans.CreatingTakesEffect | broker/app.py:3225-3275 | a created account is an active person's and holds the first role asked for, with its row and event |
| Humans.StatusTakesEffect | broker/humans.py:594-619 | one account's standing is set and nothing else changes |
| Humans.HumanRegistry.SetHumanStatus | broker/app.py:3328-3353 | the guarded route is the specified act, refusals included |
| Humans.HumanRegistry.SuspendTestFixtures | broker/humans.py:785-830 | suspends exactly the active fixtures other than the actor, and counts the accounts it changed |
| Humans.SuspensionTakesEffect | broker/humans.py:785-830 | every fixture but the actor is suspended afterwards and every other account is as it was |
| Humans.AuthorizedIff | broker/humans.py:369-395 | authorized iff active and holding the required role or a stronger one in the venture |
| Humans.MayGrantIff | broker/humans.py:439-501 | who may grant or revoke what: strictly above it, or the top role its own rank, and never to oneself |
| Budget.OvershootIsBounded | broker/budget.py:10-15 | with at most k calls in flight in a scope, each costing at most c, spend stays under the cap plus k times c on every interleaving and across month and day boundaries: a pausing unreversed venture's month, a task, an agent's day |
| Budget.NothingSpentIsWithin | broker/budget.py:81-96 | an empty ledger with nothing in flight is where those runs may begin, under any positive cap |
| Budget.SerialCallsStartBelowTheCap | broker/budget.py:108-140 | one call at a time: while a call runs, what was spent before it is below the cap |
| Budget.ReversalIsForGood | broker/budget.py:128-140 | once reversed, no later evaluation in any run meets the hard cap |
| Budget.OnlyIvanLiftsTheCap | broker/budget.py:157-182 | until somebody with the founder role reverses it, no run lifts a venture's cap or changes its action |
| Budget.HardCappedIsSoftCapped | broker/budget.py:128-154 | a venture let through its hard cap slows, and is by then soft-capped |
| Budget.BudgetLadder.Evaluate | broker/budget.py:58-154 | one pass over the ledger computes the three windows and the first rung that halts |
| Budget.LetThroughIff | broker/budget.py:108-154 | let through iff under the task ceiling, the agent's daily cap and, unless reversed or slowing, the monthly cap; a refusal names the narrowest reached, and the soft cap is the stated percentage |
| Budget.SpentCounts | broker/budget.py:81-96 | each ledger row adds its cost to exactly the scopes it is in and the windows it starts in |
| Budget.BudgetsTakeEffect | broker/budget.py:157-182 | only the founder role reverses, one venture and with who and when; re-applying a Pack changes caps alone |
| Budget.BudgetLadder.ReverseHardCap | broker/budget.py:157-182 | reverses only for the founder role, and creates no budget |

## Left out

- HTTP routes, authentication, tokens, Vault, Forge and Village calls, the CLI and the web console: wrappers and I/O.
- Revocation, proposals, shifts, the other provisioning gates and SimForge submissions; Gate 11 takes the revoked grants as a parameter.
- The audit chain's hashing; events are typed entries of an append-only sequence, and governance acts write none here.
- SHA-256, JSON and uuid4: a hash is an opaque injective value of the text under it, spelled in hexadecimal by a function assumed of fixed width and without collisions among the hashes compared, and ids come from a supply that never repeats.
- Database time is taken nondecreasing in commit order, so skew between transaction starts is not modelled.
- NUMERIC rounding of tokens and costs: amounts are reals.
- Digits outside ASCII, and signs, blanks and underscores that `int()` accepts in a version piece.
- Whitespace outside space, tab and line ends in `strip()`.
- A module id on a Unit B row; the callers write none.
- Role, status, raiser-kind and verdict strings the broker does not know, beyond one unknown verdict; a raiser is one party id.
- Account-creation events, tokens and names of humans; the role and escalation events are modelled.
- How an account's origin is inferred from older columns; it is one value here.
- The order in which listings return rows, and the cap on a page's answered escalations.
- Whether an attestation reference names an existing attestation, and the attestation table itself.
- Concurrent last-administrator removals: each guarded route is one atomic step, as the check and the write are separate statements in the source.
- How an id is spelled inside a text: the rubric of a first simulation row spells its declaration's in decimal.
- The ladder's grant upsert and its retirement of Phase 0 grants are specification functions and not methods: generators are outside the broker's own tables class.
