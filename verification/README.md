# Presidium: registry, trust, policy, approval and audit

Presidium governs software agents. This project models the parts of it that decide who may do what, and proves what
holds over whole runs of them:

- the agent registry and delegation lineage: `Lineage.dfy`, `LinearTrust.dfy`, `MemoryRegistry.dfy` (the operations on
  values), `InMemoryRegistry.dfy` (the class), `RegistryLaws.dfy` (each call, field by field), `RegistryRuns.dfy` (every
  reachable state), `DelegationCycles.dfy` (what re-registration can do to it);
- the SQLite registry: `SqliteRows.dfy` (encoders), `SqliteStore.dfy` (the operations on tables), `SqliteRegistry.dfy`
  (the class), `SqliteLaws.dfy` (each call, column by column), `BackendSimulation.dfy` (it simulates the in-memory one),
  `SqliteLineage.dfy` (lineage guarantees carried over), `SqliteCeiling.dfy` (ceilings after a restart or a
  re-registration), `WriteLock.dfy` (interleaved mutators), `TrustUnderLock.dfy` (their scorers, and progress),
  `CallAlone.dfy` (one of them uninterrupted);
- trust scoring: `Scoring.dfy`, `ScoringOrder.dfy`, `CheckpointedReplay.dfy`, `ScoreSteps.dfy` (a score event by event),
  `ScoringBounds.dfy`, `WindowedTrust.dfy`, `LearningTrust.dfy`, `LearningDrift.dfy`;
- the policy engine: `Policy.dfy`, `PolicyLaws.dfy`;
- approval and audit: `Approval.dfy`, `ApprovalSafety.dfy`, `Audit.dfy`, `AuditRuns.dfy`.

`Common.dfy` and `Model.dfy` hold shared types. Check everything with `dafny verify dfyconfig.toml`.

An object whose methods change its fields is a class; each method is proved equal to a function on values, and the laws
are proved about that function. For each main operation some law gives the result on plain fields. Operations that
interleave at an `await` are also state machines over their steps. Time is a real number of hours passed to every
operation, floats are reals, and CEL compilation and evaluation, the registry seen by the audit enricher, the approval
callback and the power 0.5**x are function values.

## Where code and documentation part

- `trust/core.py:51-53` promises decay once since the last positive signal. `record_event` bakes decay in without moving
  the signal, so it is charged again after every FAILURE, POLICY_VIOLATION or HUMAN_OVERRIDE
  (`DecayChargedOnceIff` gives the exact condition).
- `max_events = 0` keeps every event, because `result[-0:]` is the whole list (`WindowCapIff`).
- `compute_child_ceiling` floors at zero, so a child of a parent with a negative ceiling or value is above it
  (`ChildCeilingBoundsIff`). Runs here start roots with a ceiling that is None or not negative, and depth 0.
- Registration is an upsert: re-registering an agent_id can make two agents each other's parent
  (`ReRegistrationMakesACycle`; `RegisterCycleIff` says when). Lineage laws speak of runs that register no agent_id
  twice.
- Removing a parent's grant leaves its children's alone, so provenance is about what ancestors held, and a child can
  come to hold more than its parent (`RemovalNarrowIff`, `NarrowThroughoutIff`).
- Re-registering a name in SQLite keeps the old scorer, which in memory is replaced (`RegisterKeepsSimIff`), and after a
  restart a scorer is rebuilt without its ceiling, so that even an override passes it, unlike `trust/core.py:121-129`
  (`ReRegisteredKeepsCeilingIff`, `RestartKeepsCeilingIff`, `FirstOverrideAfterRestartIff`).
- `register` and `update_identity` answer with stored trust fields in memory and with scored ones in SQLite
  (`RegisterAnswersEqualIff`, `ChildAnswersEqualIff`, `IdentityAnswersEqualIff`).
- With the controllability filter on, an uncontrollable event still takes a place in the window (`SameWindowIff`) and
  still counts as seen, so that it advances the warm-up of a cold start (`UncontrollableInvisibleIff`,
  `UncontrollableWarmsUp`).
- A replay without events does not decay the initial value, and one with events does not decay it before the first
  (`NoEventYetIff`, `FirstEventLater`).
- A learning run reads the whole journal, so old overrides count again (`LearningRepeats`); events keep the weight they
  were recorded under, so learning never changes the value of past events (`LearningLeavesValue`).
- Two pending approvals under one id: the first to end removes the other from both tables (`ReusedIdIsLost`).
- `details` that is present but no dict is replaced, not extended (`OnlyAddedIff`).

## Model

| member | source | states |
|---|---|---|
| LinearTrust.LinearTrustScore.constructor | packages/presidium/src/presidium/trust/core.py:64-78 | a new scorer holds the clamped initial value, its rate and ceiling, and counts decay from now |
| LinearTrust.LinearTrustScore.Value | packages/presidium/src/presidium/trust/core.py:85-91 | the value read is the stored value less decay, floored at zero, then cut to the ceiling |
| LinearTrust.LinearTrustScore.RecordEvent | packages/presidium/src/presidium/trust/core.py:101-116 | an event bakes decay in, adds its delta within [0, 1], and restarts the decay clock only on SUCCESS |
| LinearTrust.LinearTrustScore.SetValue | packages/presidium/src/presidium/trust/core.py:118-134 | an override stores the clamped value and restarts the decay clock; the ceiling is left to the read path |
| LinearTrustLaws.CapTransparency | packages/presidium/src/presidium/trust/core.py:85-134 | over every run of events and overrides a capped scorer reads min(ceiling, what an uncapped twin reads) |
| LinearTrustLaws.CeilingNeverStored | packages/presidium/src/presidium/trust/core.py:101-134 | a ceiling never influences what is stored, over any run |
| LinearTrustLaws.ReadingClosedForm | packages/presidium/src/presidium/trust/core.py:85-116 | after any non-positive events the uncapped reading is max(0, s minus every penalty, minus for each event the decay since the last positive signal, minus the decay still outstanding) |
| LinearTrustLaws.RunClosedForm | packages/presidium/src/presidium/trust/core.py:85-134 | the closed form holds after the last positive operation of any run |
| LinearTrustLaws.NeverRisesUnprovoked | packages/presidium/src/presidium/trust/core.py:85-116 | without SUCCESS or set_value the reading, capped or not, never rises |
| LinearTrustLaws.DecayChargedOnceIff | packages/presidium/src/presidium/trust/core.py:51-116 | the reading, capped or not, is at most what the docstring promises (decay once since the last positive signal), and equal exactly when the rate is zero, every event falls on the last signal, the promised reading is already zero, or the ceiling hides the difference |
| LinearTrustLaws.DecayChargedTwiceExample | packages/presidium/src/presidium/trust/core.py:104-116 | one FAILURE after ten hours from 0.5: 0.25 is read where the docstring gives 0.35 |
| LinearTrustLaws.PositiveSignal | packages/presidium/src/presidium/trust/core.py:85-134 | after SUCCESS the uncapped reading is 0.02 above the one before, after an override the value given, each within [0, 1], and from there it loses the rate every hour down to zero |
| Model.TierBands | packages/presidium/src/presidium/trust/core.py:10-19 | TRUSTED from 0.7, STANDARD from 0.3, RESTRICTED below |
| Lineage.ChildCeilingBoundsIff | packages/presidium/src/presidium/lineage.py:33-56 | a child ceiling is never negative, and is within the parent ceiling, the parent value and the request exactly when each of these is not negative |
| Lineage.GreatestAllowed | packages/presidium/src/presidium/lineage.py:51-56 | the child ceiling is the greatest real within the request, the parent ceiling (1.0 when absent) and the parent value, or zero when that is negative |
| Lineage.DerivedIff | packages/presidium/src/presidium/registry/memory.py:92-100 | a child is derived exactly when its parent holds every pair asked for and the depth allows, escalation being reported first; ceiling and value are the greatest allowed, the tier is the value's, and nothing else changes |
| Lineage.NarrowedUnique | packages/presidium/src/presidium/lineage.py:33-56 | that fixes ceiling, value, tier and depth of the child |
| Lineage.NarrowingIff | packages/presidium/src/presidium/lineage.py:59-94 | narrowing passes exactly when every (resource, action) pair is held by the parent; an error lists exactly the missing pairs |
| MemoryRegistry.FirstWithIdFound | packages/presidium/src/presidium/registry/memory.py:119-124 | the scan by id finds a registered record with that id, or none has it |
| MemoryRegistry.SelectIs | packages/presidium/src/presidium/registry/memory.py:126-142 | a listing holds exactly the records that match every filter given |
| MemoryRegistry.StepWellFormed | packages/presidium/src/presidium/registry/memory.py:61-242 | every operation, successful or not, keeps records and scorers keyed alike and each record under its own name |
| RegistryLaws.RegisterRoot | packages/presidium/src/presidium/registry/memory.py:92-105 | a root is stored as given, one revision on, last in order, with a new scorer at its value within [0, 1] and under its ceiling |
| RegistryLaws.RegisterChild | packages/presidium/src/presidium/registry/memory.py:92-105 | a child is stored exactly when its parent resolves, holds every pair and leaves depth; with the greatest ceiling and value allowed, on the record, in the answer and in its scorer; each refusal in its order and nothing stored |
| RegistryLaws.LookupIs | packages/presidium/src/presidium/registry/memory.py:86-117 | a lookup answers and stores the record with the scorer's reading and its tier, and nothing else changed |
| RegistryLaws.LookupByIdIs | packages/presidium/src/presidium/registry/memory.py:119-124 | by id it is the lookup of the earliest registered name with that id |
| RegistryLaws.ListIs | packages/presidium/src/presidium/registry/memory.py:126-142 | a listing refreshes every record and answers, in order of registration, those that pass every filter given |
| RegistryLaws.AddGrantIs | packages/presidium/src/presidium/registry/memory.py:144-152 | a root gets any grant, a child exactly what its resolved parent covers; the grant goes last, revision, time and trust move, nothing else does |
| RegistryLaws.RemoveGrantIs | packages/presidium/src/presidium/registry/memory.py:154-162 | the first grant with the id is cut out, or GrantNotFound and no change |
| RegistryLaws.HasGrantIff | packages/presidium/src/presidium/registry/memory.py:164-166 | true exactly when some one grant lists both the resource and the action |
| RegistryLaws.TrustEventIs | packages/presidium/src/presidium/registry/memory.py:168-194 | one scorer, one record and one log entry change; record and entry show the readings before and after, with their tiers |
| RegistryLaws.SetTrustIs | packages/presidium/src/presidium/registry/memory.py:196-226 | the same for an override, logged as HUMAN_OVERRIDE |
| RegistryLaws.StatusIs | packages/presidium/src/presidium/registry/memory.py:228-233 | the status is the one given, revision and time move, trust is refreshed, nothing else changes |
| RegistryLaws.IdentityIs | packages/presidium/src/presidium/registry/memory.py:235-242 | key and algorithm are those given, revision and time move, trust stays as stored |
| RegistryLaws.DeregisterIs | packages/presidium/src/presidium/registry/memory.py:107-110 | name, record and scorer are cut out and the others keep their order |
| RegistryLaws.UnknownName | packages/presidium/src/presidium/registry/memory.py:73-77 | an unknown name is refused with AgentNotFound and nothing changes |
| InMemoryRegistryClass.InMemoryRegistry.constructor | packages/presidium/src/presidium/registry/memory.py:61-65 | a new registry is empty |
| InMemoryRegistryClass.InMemoryRegistry.SyncTrust | packages/presidium/src/presidium/registry/memory.py:86-90 | the record takes the scorer's present value and tier |
| InMemoryRegistryClass.InMemoryRegistry.Lookup | packages/presidium/src/presidium/registry/memory.py:112-117 | a lookup answers, and stores, the record with its trust fields refreshed; an unknown name answers none |
| InMemoryRegistryClass.InMemoryRegistry.LookupById | packages/presidium/src/presidium/registry/memory.py:119-124 | the same, for the first registered record with the id |
| InMemoryRegistryClass.InMemoryRegistry.Register | packages/presidium/src/presidium/registry/memory.py:92-105 | a root is stored as given; a child gets ceiling, value, tier and depth from its resolved parent or one of three errors; a new scorer replaces any old one; on an error nothing changes but the parent's refreshed trust fields |
| InMemoryRegistryClass.InMemoryRegistry.Deregister | packages/presidium/src/presidium/registry/memory.py:107-110 | exactly that agent and its scorer go; an unknown name raises and changes nothing |
| InMemoryRegistryClass.InMemoryRegistry.ListAgents | packages/presidium/src/presidium/registry/memory.py:126-142 | every record is refreshed and those matching are answered in registration order |
| InMemoryRegistryClass.InMemoryRegistry.AddGrant | packages/presidium/src/presidium/registry/memory.py:144-152 | the grant is appended if the agent is a root or its parent holds every pair of it; otherwise the error and no grant |
| InMemoryRegistryClass.InMemoryRegistry.RemoveGrant | packages/presidium/src/presidium/registry/memory.py:154-162 | the first grant with the id goes and the rest keep their order, or GrantNotFound |
| InMemoryRegistryClass.InMemoryRegistry.HasGrant | packages/presidium/src/presidium/registry/memory.py:164-166 | true exactly when one grant covers both resource and action |
| InMemoryRegistryClass.InMemoryRegistry.RecordTrustEvent | packages/presidium/src/presidium/registry/memory.py:168-194 | the scorer moves, the log gains one entry with the readings before and after, the record is refreshed and touched |
| InMemoryRegistryClass.InMemoryRegistry.SetTrust | packages/presidium/src/presidium/registry/memory.py:196-226 | the same for an override, logged as HUMAN_OVERRIDE |
| InMemoryRegistryClass.InMemoryRegistry.UpdateStatus | packages/presidium/src/presidium/registry/memory.py:228-233 | only status, revision, time and trust fields of that record change |
| InMemoryRegistryClass.InMemoryRegistry.UpdateIdentity | packages/presidium/src/presidium/registry/memory.py:235-242 | only key, algorithm, revision and time of that record change; trust fields are answered unrefreshed |
| RegistryRuns.ReachableInv | packages/presidium/src/presidium/registry/memory.py:61-242 | every state of every run in which no agent_id is registered twice keeps lineage, scorer and history in agreement |
| RegistryRuns.ResolvedParent | packages/presidium/src/presidium/registry/memory.py:67-71 | a parent resolved by id shows the ceiling and depth it was born with and a value within that ceiling |
| RegistryRuns.CeilingAlongLineage | packages/presidium/src/presidium/lineage.py:33-56 | in every reachable state, now or later, an agent's value is within its ceiling, its ceiling within that of every ancestor and within the value its parent had at its registration |
| RegistryRuns.DepthIsARank | packages/presidium/src/presidium/lineage.py:97-111 | a child is one deeper than its registered parent and within the maximum; walking up ends at a root in exactly `depth` steps; nobody is its own ancestor |
| RegistryRuns.GrantProvenance | packages/presidium/src/presidium/lineage.py:59-94 | whatever pair an agent obtains was held by every ancestor in an earlier state |
| RegistryRuns.HeldByAncestors | packages/presidium/src/presidium/lineage.py:59-94 | whatever pair an agent holds, every ancestor held then or earlier |
| RegistryRuns.Obtained | packages/presidium/src/presidium/registry/memory.py:92-166 | the only ways to come by a pair are registration and add_grant, and then the parent holds it just before |
| RegistryRuns.RemovalNarrowIff | packages/presidium/src/presidium/registry/memory.py:154-162 | remove_grant leaves no child above its parent exactly when what remains covers every pair its other registered children hold |
| RegistryRuns.StepNarrowIff | packages/presidium/src/presidium/registry/memory.py:92-242 | in every reachable state any call keeps children within their registered parents, except exactly the removals that uncover one |
| RegistryRuns.NarrowThroughoutIff | packages/presidium/src/presidium/registry/memory.py:144-166 | through a run every child stays within its registered parent exactly as long as no removal uncovers one |
| RegistryRuns.ReRegistrationMakesACycle | packages/presidium/src/presidium/registry/memory.py:92-105 | registering an agent again under its own child succeeds exactly when the depth allows and the child holds every pair asked for, and makes the two each other's parent |
| DelegationCycles.RegisterCycleIff | packages/presidium/src/presidium/registry/memory.py:92-105 | from a registry without cycles a successful registration makes one exactly when the chain of the other records up from its parent id comes back to its own id |
| DelegationCycles.ReRegistrationCycleIff | packages/presidium/src/presidium/registry/memory.py:92-105 | for a new name, or one that keeps its id, that is the chain of parents as registered |
| SqliteRows.RowRoundTrip | packages/presidium/src/presidium/registry/sqlite.py:93-164 | every record read back from its row, the JSON list of grants included, is the record |
| SqliteRows.UpdateStores | packages/presidium/src/presidium/registry/sqlite.py:461-478 | the UPDATE of _save, which leaves id, name and creation time alone, stores exactly the record read from that row and changed |
| SqliteRows.UpdatedRow | packages/presidium/src/presidium/registry/sqlite.py:461-478 | an UPDATE with any record keeps the row's id, name and creation time and takes everything else from the record |
| SqliteStore.InsertTable | packages/presidium/src/presidium/registry/sqlite.py:231-243 | INSERT OR REPLACE leaves every row decodable, under its own name, with unique ids |
| SqliteStore.SaveTable | packages/presidium/src/presidium/registry/sqlite.py:461-478 | a save keeps the table sound |
| SqliteLaws.SqlRegisterRoot | packages/presidium/src/presidium/registry/sqlite.py:217-246 | the row inserted decodes to the record as given, one revision on; it replaces rows with its id or name only; a scorer is made unless one is kept |
| SqliteLaws.SqlRegisterChild | packages/presidium/src/presidium/registry/sqlite.py:217-246 | a child's row holds the greatest ceiling and value its parent allows, exactly when the parent resolves, covers it and leaves depth; else the error in its order and no change |
| SqliteLaws.ReadIs | packages/presidium/src/presidium/registry/sqlite.py:256-274 | a read is the decoded row, its trust fields the scorer's reading and tier when there is a scorer |
| SqliteLaws.SqlListIs | packages/presidium/src/presidium/registry/sqlite.py:276-310 | a listing answers exactly the records, as read, that pass every filter given |
| SqliteLaws.ListWritesBack | packages/presidium/src/presidium/registry/sqlite.py:276-310 | with a tier filter every scorer's reading and tier is written into its row first; otherwise, and besides, no row changes |
| SqliteLaws.SqlAddGrantIs | packages/presidium/src/presidium/registry/sqlite.py:312-325 | the row then holds the record read with the grant last, or the refusal and no change |
| SqliteLaws.SqlRemoveGrantIs | packages/presidium/src/presidium/registry/sqlite.py:327-335 | the row then holds the record read without the first grant of the id, or GrantNotFound |
| SqliteLaws.SqlTrustEventIs | packages/presidium/src/presidium/registry/sqlite.py:341-373 | the scorer in memory, or a new one without ceiling, moves; row, scorer and log entry agree on the readings |
| SqliteLaws.SqlSetTrustIs | packages/presidium/src/presidium/registry/sqlite.py:375-407 | the same for an override |
| SqliteLaws.SqlStatusIs | packages/presidium/src/presidium/registry/sqlite.py:409-414 | the row holds the record read with that status, touched |
| SqliteLaws.SqlIdentityIs | packages/presidium/src/presidium/registry/sqlite.py:416-424 | the row holds the record read with that key and algorithm, touched |
| SqliteLaws.SqlDeregisterIs | packages/presidium/src/presidium/registry/sqlite.py:248-254 | the row and the scorer under the name are gone, nothing else |
| SqliteLaws.SqlHasGrantIff | packages/presidium/src/presidium/registry/sqlite.py:337-339 | true exactly when one grant of the record read lists both |
| SqliteRegistryClass.SqliteRegistry.constructor | packages/presidium/src/presidium/registry/sqlite.py:175-185 | a new registry has no rows and no scorers |
| SqliteRegistryClass.SqliteRegistry.Lookup | packages/presidium/src/presidium/registry/sqlite.py:256-264 | answers the decoded row with trust from its scorer, storing nothing |
| SqliteRegistryClass.SqliteRegistry.LookupById | packages/presidium/src/presidium/registry/sqlite.py:266-274 | the same, for the row with the id |
| SqliteRegistryClass.SqliteRegistry.EnsureScorer | packages/presidium/src/presidium/registry/sqlite.py:208-215 | an existing scorer is kept whatever value and ceiling are asked for |
| SqliteRegistryClass.SqliteRegistry.Save | packages/presidium/src/presidium/registry/sqlite.py:461-478 | revision and time move and the row is rewritten |
| SqliteRegistryClass.SqliteRegistry.Register | packages/presidium/src/presidium/registry/sqlite.py:217-246 | parent first, then the row inserted or replaced, the scorer ensured, and the row read back |
| SqliteRegistryClass.SqliteRegistry.Deregister | packages/presidium/src/presidium/registry/sqlite.py:248-254 | row and scorer go, or AgentNotFound |
| SqliteRegistryClass.SqliteRegistry.ListAgents | packages/presidium/src/presidium/registry/sqlite.py:276-310 | trust columns are written back first when the tier is filtered, and the rows matching all filters are answered, each once |
| SqliteRegistryClass.SqliteRegistry.Scan | packages/presidium/src/presidium/registry/sqlite.py:299-310 | the SELECT answers every matching row once, decoded, with trust from its scorer |
| SqliteRegistryClass.SqliteRegistry.SyncAllTrustToDb | packages/presidium/src/presidium/registry/sqlite.py:446-453 | every row with a scorer gets its value and tier, and nothing else changes |
| SqliteRegistryClass.SqliteRegistry.AddGrant | packages/presidium/src/presidium/registry/sqlite.py:312-325 | as in memory, through the row |
| SqliteRegistryClass.SqliteRegistry.RemoveGrant | packages/presidium/src/presidium/registry/sqlite.py:327-335 | as in memory, through the row |
| SqliteRegistryClass.SqliteRegistry.HasGrant | packages/presidium/src/presidium/registry/sqlite.py:337-339 | as in memory, through the row |
| SqliteRegistryClass.SqliteRegistry.RecordTrustEvent | packages/presidium/src/presidium/registry/sqlite.py:341-373 | a scorer missing from memory is rebuilt without a ceiling; event, saved value and log entry agree |
| SqliteRegistryClass.SqliteRegistry.SetTrust | packages/presidium/src/presidium/registry/sqlite.py:375-407 | the same for an override |
| SqliteRegistryClass.SqliteRegistry.UpdateStatus | packages/presidium/src/presidium/registry/sqlite.py:409-414 | status, revision and time, and the refreshed trust, are saved |
| SqliteRegistryClass.SqliteRegistry.UpdateIdentity | packages/presidium/src/presidium/registry/sqlite.py:416-424 | key, algorithm, revision and time, and the refreshed trust, are saved |
| BackendSimulation.StepSim | packages/presidium/src/presidium/registry/sqlite.py:217-478 | one call on related states, registering no known name or id, leaves related states and gives the same answer or the same error |
| BackendSimulation.RunSim | packages/presidium/src/presidium/registry/sqlite.py:217-478 | so does every run |
| BackendSimulation.BackendsAnswerAlike | packages/presidium/src/presidium/registry/sqlite.py:217-478 | from empty registries, call by call, SQLite and memory raise together and answer alike (register and update_identity: but for trust fields) |
| BackendSimulation.ListSim | packages/presidium/src/presidium/registry/sqlite.py:276-310 | listings agree as sets for every filter |
| SqliteLineage.StoreReads | packages/presidium/src/presidium/registry/sqlite.py:256-264 | in every state of a run with fresh agent ids and free names, a lookup in SQLite answers what memory answers |
| SqliteLineage.SqliteCeilingAlongLineage | packages/presidium/src/presidium/registry/sqlite.py:217-410 | on such runs an agent's value in SQLite is within its ceiling, its ceiling within that of every ancestor and within the value its parent had at its registration |
| SqliteLineage.SqliteHeldByAncestors | packages/presidium/src/presidium/registry/sqlite.py:217-335 | on such runs whatever pair an agent holds in SQLite, each of its ancestors held there then or earlier |
| BackendSimulation.RegisterKeepsSimIff | packages/presidium/src/presidium/registry/sqlite.py:208-246 | a successful registration leaves the backends related exactly when no other agent holds the id and the name is new or its kept scorer is as a new one would be |
| BackendSimulation.RegisterAnswersEqualIff | packages/presidium/src/presidium/registry/sqlite.py:245-246 | a root's two answers are equal exactly when the tier is the value's own and the value is in [0, 1] and within its ceiling, or is itself the negative ceiling |
| BackendSimulation.ChildAnswersEqualIff | packages/presidium/src/presidium/registry/sqlite.py:218-246 | a child's two answers are equal on every error, and on success exactly when its value cut to its ceiling is in [0, 1] |
| BackendSimulation.IdentityAnswersEqualIff | packages/presidium/src/presidium/registry/sqlite.py:416-424 | the two answers to update_identity are equal exactly when the agent is unknown or its stored value and tier are what its scorer reads now |
| BackendSimulation.ReRegisteredAnswerIff | packages/presidium/src/presidium/registry/sqlite.py:208-246 | re-registration keeps the old scorer, and its answer is within the new ceiling exactly when that scorer has decayed to it or has a ceiling within it |
| SqliteCeiling.StaysWithinIff | packages/presidium/src/presidium/registry/sqlite.py:208-215 | over every run that leaves an agent registered under its name and id, whatever else it does, the agent stays within a ceiling exactly when the top its scorer can reach is within it and so is the value it starts from |
| SqliteCeiling.ReRegisteredKeepsCeilingIff | packages/presidium/src/presidium/registry/sqlite.py:208-246 | after re-registration every such run stays within the new ceiling exactly when the kept scorer's ceiling is at most the new one, or the new one is at least 1 |
| SqliteCeiling.RestartKeepsCeilingIff | packages/presidium/src/presidium/registry/sqlite.py:341-388 | after a restart every such run stays within the ceiling exactly when the stored value does and the ceiling is at least 1 |
| SqliteCeiling.FirstEventAfterRestartIff | packages/presidium/src/presidium/registry/sqlite.py:341-355 | the first event after a restart stays within the ceiling exactly when it is no SUCCESS, the SUCCESS fits, or the ceiling is 1 |
| SqliteCeiling.FirstOverrideAfterRestartIff | packages/presidium/src/presidium/registry/sqlite.py:375-388 | the first set_trust after a restart stays within the ceiling exactly when the value asked for does, or the ceiling is 1, though an override is documented never to pass it |
| SqliteCeiling.SecondSuccessExceeds | packages/presidium/src/presidium/registry/sqlite.py:341-355 | from 0.50 under a ceiling of 0.53 the first SUCCESS after a restart answers 0.52 and the second 0.54 |
| WriteLock.EveryInterleaving | packages/presidium/src/presidium/registry/sqlite.py:217-424 | every interleaving of the mutators' awaits keeps the lock discipline: one holder, a holder's reading matches its row, the table is sound |
| WriteLock.LockOrderSerialises | packages/presidium/src/presidium/registry/sqlite.py:217-424 | whatever the interleaving, all columns but the two trust columns are those of the calls run whole in lock order |
| WriteLock.SerialIsTheCall | packages/presidium/src/presidium/registry/sqlite.py:217-424 | a critical section run whole leaves the rows and scorers that the call leaves in the sequential model |
| CallAlone.AloneIsTheCall | packages/presidium/src/presidium/registry/sqlite.py:217-424 | a call that finds the lock free and runs without interruption through the interleaved model leaves the rows, the scorers and the error of the sequential call, gives the lock back and touches no other task |
| TrustUnderLock.TrustSerialises | packages/presidium/src/presidium/registry/sqlite.py:341-407 | whatever the interleaving, the scorers are those of the calls run in lock order, each computing at its own instant, plus the move of a holder that has not written yet: no concurrent trust event or override is lost |
| TrustUnderLock.HolderProgresses | packages/presidium/src/presidium/registry/sqlite.py:217-424 | while a call holds the lock its own next move is enabled and brings it nearer to giving the lock back, and no other call takes the lock or sets it back |
| WriteLock.GrantSurvivesIff | packages/presidium/src/presidium/registry/sqlite.py:217-424 | in every reachable state a step of any task drops a stored grant exactly when it is a write that undoes it: its removal, the agent's deregistration, or a registration over the agent's name without the grant or over its id |
| WriteLock.NoGrantLost | packages/presidium/src/presidium/registry/sqlite.py:312-325 | once add_grant has written, its grant is there at the end of every interleaving in which no later write undoes it |
| WriteLock.RegistrationsNarrowed | packages/presidium/src/presidium/registry/sqlite.py:217-246 | what register inserts is what its own resolve step derived, before that call had the lock, from a parent that held every pair of it then |
| Scoring.ComputeScore | packages/presidium/src/presidium/scoring/functions.py:54-86 | the loop over the sorted, filtered events computes the fold the other scoring laws are about |
| ScoringOrder.SortSorts | packages/presidium/src/presidium/scoring/functions.py:40 | the sort rearranges the events into time order |
| ScoringOrder.SortKeep | packages/presidium/src/presidium/scoring/functions.py:65-66 | the sort is stable: it commutes with every filter |
| ScoringOrder.WindowIsLatest | packages/presidium/src/presidium/scoring/functions.py:27-45 | with a cap of at least one the window holds, sorted, the latest in-age events, as many as the cap allows |
| ScoringOrder.WindowCapIff | packages/presidium/src/presidium/scoring/functions.py:42-43 | the window respects its cap exactly when the cap is at least 1, or 0 with nothing in age (a cap of 0 keeps everything) |
| ScoringOrder.WindowLocality | packages/presidium/src/presidium/scoring/functions.py:89-107 | histories that agree after an instant, with a full window of in-age events there, have the same window and windowed score |
| ScoringOrder.WindowUncapped | packages/presidium/src/presidium/scoring/functions.py:27-40 | without a window every event is held as listed, without a cap every event no older than the limit, in time order |
| ScoringOrder.WindowedScoreIs | packages/presidium/src/presidium/scoring/functions.py:89-107 | a windowed score is the score of the events held, and the initial value exactly when none of them counts |
| ScoringOrder.ReplayIgnoresLater | packages/presidium/src/presidium/scoring/functions.py:110-133 | an event after as_of, wherever it is listed, changes no replay, windowed or not |
| ScoringOrder.ReplayOfPast | packages/presidium/src/presidium/scoring/functions.py:110-133 | with no event after as_of a replay is the windowed score of the whole history, or its score without a window |
| ScoreSteps.NothingCounted | packages/presidium/src/presidium/scoring/functions.py:48-86 | with no counted event the score is the initial value within [0, 1] |
| ScoreSteps.UncountedEvent | packages/presidium/src/presidium/scoring/functions.py:48-51 | with the filter on an uncontrollable event changes no score |
| ScoreSteps.OneMore | packages/presidium/src/presidium/scoring/functions.py:68-80 | one more counted event adds to the score of its instant its delta, or else its weight, or nothing, within [0, 1] |
| ScoreSteps.Waiting | packages/presidium/src/presidium/scoring/functions.py:82-86 | after the last event the score at a later instant is the score decayed over the hours between |
| ScoreSteps.DecayIs | packages/presidium/src/presidium/scoring/functions.py:17-24 | linear decay takes the rate every hour down to zero, exponential half every half-life, 72 hours unless set, and none backwards |
| ScoringOrder.OrderIndependence | packages/presidium/src/presidium/scoring/functions.py:54-133 | with distinct timestamps score, windowed_score and replay are the same for every permutation of the events |
| CheckpointedReplay.DecaySemigroup | packages/presidium/src/presidium/scoring/functions.py:17-24 | decaying for a then b is decaying for a + b: linear with rate >= 0, exponential given the power law |
| CheckpointedReplay.ReplayResumes | packages/presidium/src/presidium/scoring/functions.py:110-133 | replay to t2 is the score of a zero event at t1 and the events in (t1, t2], started from the replay to t1, whenever a counted event is at or before t1 |
| CheckpointedReplay.NoEventYetIff | packages/presidium/src/presidium/scoring/functions.py:68-86 | with no event up to t2 it holds exactly when decaying the clamped initial value from t1 to t2 leaves it unchanged |
| CheckpointedReplay.FirstEventLater | packages/presidium/src/presidium/scoring/functions.py:68-80 | with the first event after t1 it holds if that event ends at the same value from the initial value as from the decayed checkpoint |
| CheckpointedReplay.FirstEventNowIff | packages/presidium/src/presidium/scoring/functions.py:68-86 | at that event's own instant, while it is the only one, it holds exactly then |
| CheckpointedReplay.NoEarlierEvent | packages/presidium/src/presidium/scoring/functions.py:69-70 | an input without an event at or before t1 at which it fails: 0.5 against 0.4 |
| ScoringBounds.ScoreMoves | packages/presidium/src/presidium/scoring/functions.py:54-86 | raising initial value or deltas never lowers the score, and the score moves by no more than all of them together |
| ScoringBounds.DecayMoves | packages/presidium/src/presidium/scoring/functions.py:17-24 | decay is monotone and non-expansive |
| WindowedTrust.WindowedTrustScorer.RecordEvent | packages/presidium/src/presidium/trust/windowed.py:77-101 | an override without an actor is refused and changes nothing; any other event is buffered with its weight and counted |
| WindowedTrust.WindowedTrustScorer.ReadValue | packages/presidium/src/presidium/trust/windowed.py:103-135 | the value is the windowed score blended with the initial value |
| WindowedTrust.WindowedTrustScorer.SetValue | packages/presidium/src/presidium/trust/windowed.py:169-174 | an override empties the buffer and restarts the warm-up from the clamped value |
| WindowedTrust.WarmUpIsEven | packages/presidium/src/presidium/trust/windowed.py:122-132 | in the warm-up each event takes the reading one part in min_events of the way from the initial value to the score |
| WindowedTrust.RecordedIs | packages/presidium/src/presidium/trust/windowed.py:77-101 | the buffered event, field by field: its name, instant, context, and the weight of its name as delta; refused exactly without an actor on an override |
| WindowedTrust.OverrideReads | packages/presidium/src/presidium/trust/windowed.py:169-174 | after an override the value given, within [0, 1], is read at every instant until the next event |
| WindowedTrust.SameWindowIff | packages/presidium/src/presidium/scoring/functions.py:27-51 | filtering before the window or after it selects the same events exactly when the window is full of controllable events or leaves none of those in age out |
| WindowedTrust.BlendsEqualIff | packages/presidium/src/presidium/trust/windowed.py:122-132 | two counts of events blend a score alike exactly when both have warmed up, they are equal, the score is the initial value, or both blends are clamped away |
| WindowedTrust.UncontrollableInvisibleIff | packages/presidium/src/presidium/trust/windowed.py:77-135 | with the filter on, at every instant at which that condition holds, through overrides and ageing, a scorer reads what one told only of the controllable events reads, exactly when the two have warmed up alike |
| WindowedTrust.InvisibleWhileFewInAgeIff | packages/presidium/src/presidium/trust/windowed.py:77-135 | so it does whenever no more events are in age than the window holds, however many were recorded |
| WindowedTrust.InvisibleWithinCapacity | packages/presidium/src/presidium/trust/windowed.py:77-135 | without a warm-up and with no more events recorded than the window holds, uncontrollable events change no reading |
| WindowedTrust.UncontrollableWarmsUp | packages/presidium/src/presidium/trust/windowed.py:94-130 | a run at which the warm-up differs: with min_events 5 an uncontrollable SUCCESS moves the reading from 0.204 to 0.208 |
| WindowedTrust.UncontrollableDisplaces | packages/presidium/src/presidium/trust/windowed.py:103-120 | a run at which the condition fails: in a full window an uncontrollable event displaces a controllable one and the readings differ |
| LearningTrust.LearningTrustScorer.constructor | packages/presidium-contrib/src/presidium_contrib/trust/scorer.py:57-90 | a new scorer has the clamped value, the named weights and empty buffer, journal and audits |
| LearningTrust.LearningTrustScorer.ReadValue | packages/presidium-contrib/src/presidium_contrib/trust/scorer.py:92-120 | the value is the windowed score blended with the initial value |
| LearningTrust.LearningTrustScorer.RecordEvent | packages/presidium-contrib/src/presidium_contrib/trust/scorer.py:142-192 | an override without an EventContext naming its actor is refused; any other event is buffered with the present weight and journalled |
| LearningTrust.LearningTrustScorer.SetValue | packages/presidium-contrib/src/presidium_contrib/trust/scorer.py:194-214 | an override empties the buffer and is journalled as HUMAN_OVERRIDE |
| LearningTrust.LearningTrustScorer.AdjustWeights | packages/presidium-contrib/src/presidium_contrib/trust/scorer.py:216-218 | the named weights are overwritten and nothing else changes |
| LearningTrust.LearningTrustScorer.Collect | packages/presidium-contrib/src/presidium_contrib/trust/scorer.py:242-256 | the first loop files every override's direction under the event it answers, in order, and counts them |
| LearningTrust.LearningTrustScorer.ApplyAll | packages/presidium-contrib/src/presidium_contrib/trust/scorer.py:258-270 | the second loop, in whatever order it visits the kinds, applies every capped change and reports them with the largest |
| LearningTrust.LearningTrustScorer.LearnFromHistory | packages/presidium-contrib/src/presidium_contrib/trust/scorer.py:220-285 | within the cooldown nothing changes; otherwise weights, audit and the time of learning move together |
| LearningDrift.JournalIsHonest | packages/presidium-contrib/src/presidium_contrib/trust/scorer.py:142-214 | a journal entry's direction is the reading after less the reading before, its tiers are theirs, and learning will take the direction for that override's |
| LearningDrift.JournalNotes | packages/presidium-contrib/src/presidium_contrib/trust/scorer.py:142-214 | an entry keeps the instant and the context given, with reason and actor beside the metadata when not empty, and the value set by an override |
| LearningDrift.ScoresLikeWindowed | packages/presidium-contrib/src/presidium_contrib/trust/scorer.py:92-214 | between lessons a learner reads, refuses, buffers and is overridden as the windowed scorer with its weights and no filter |
| LearningDrift.WeightsByName | packages/presidium-contrib/src/presidium_contrib/trust/scorer.py:57-90 | weights given by kind are kept by its name, and no others |
| LearningDrift.LearnsIff | packages/presidium-contrib/src/presidium_contrib/trust/scorer.py:220-240 | learning changes nothing exactly within the cooldown; otherwise one audit is appended and only weights and the time of learning move besides |
| LearningDrift.MovesByAverage | packages/presidium-contrib/src/presidium_contrib/trust/scorer.py:258-270 | a weight moves by rate times the average of its n directions (d * n is rate times their sum), or by the cap in that direction when that is more, and not at all with none |
| LearningDrift.AuditTellsAll | packages/presidium-contrib/src/presidium_contrib/trust/scorer.py:258-283 | an audit records exactly how far each weight moved, never beyond the cap |
| LearningDrift.LargestIsAttained | packages/presidium-contrib/src/presidium_contrib/trust/scorer.py:258-283 | the audit's largest delta bounds every weight movement and is one of them |
| LearningDrift.RunSpan | packages/presidium-contrib/src/presidium_contrib/trust/scorer.py:220-285 | over any stretch of a run without adjust_weights the new audits are at least the cooldown apart, each within the cap, and together are exactly what the weight moved |
| LearningDrift.WeightIsAudited | packages/presidium-contrib/src/presidium_contrib/trust/scorer.py:216-285 | over every run without adjust_weights a weight is its initial value plus the changes of all audits |
| LearningDrift.BoundedDrift | packages/presidium-contrib/src/presidium_contrib/trust/scorer.py:220-285 | over any span T of a run with cooldown h > 0 and no adjust_weights no weight moves more than (floor(T/h) + 1) times the cap |
| LearningDrift.ReachableTracked | packages/presidium-contrib/src/presidium_contrib/trust/scorer.py:274-275 | every state of every run is one the drift bound speaks of |
| LearningDrift.FollowsOverrides | packages/presidium-contrib/src/presidium_contrib/trust/scorer.py:258-268 | a weight rises exactly when the overrides that answered its events raised the value on balance |
| LearningDrift.ConsideredOnce | packages/presidium-contrib/src/presidium_contrib/trust/scorer.py:242-256 | each override that answers an event is counted once, under one kind |
| LearningDrift.LearningRepeats | packages/presidium-contrib/src/presidium_contrib/trust/scorer.py:220-285 | learning again after the cooldown with nothing new moves every weight by the same amount once more: the journal is not consumed |
| LearningDrift.LearningLeavesValue | packages/presidium-contrib/src/presidium_contrib/trust/scorer.py:92-176 | in every reachable state, learning or adjusting weights leaves the value read at every instant as it was |
| Policy.CelPolicyEngine.constructor | packages/presidium/src/presidium/policy/cel.py:61-80 | a new engine has no rules, an empty cache and no warnings |
| Policy.CelPolicyEngine.CompileAll | packages/presidium/src/presidium/policy/cel.py:82-105 | every enabled rule goes to each of its stages in order, or the first that does not compile is reported |
| Policy.NoFailure | packages/presidium/src/presidium/policy/cel.py:85-92 | a list loads exactly when every enabled rule compiles |
| Policy.FailureHere | packages/presidium/src/presidium/policy/cel.py:85-92 | a failed load names the first enabled rule that does not compile, with its expression and the compiler's detail |
| Policy.CelPolicyEngine.LoadPolicies | packages/presidium/src/presidium/policy/cel.py:82-110 | a load replaces all rules or, naming the first enabled rule that does not compile, none |
| PolicyLaws.LoadFails | packages/presidium/src/presidium/policy/cel.py:82-105 | rules load exactly when every enabled expression compiles; otherwise the error names the first that does not |
| PolicyLaws.RuleSees | packages/presidium/src/presidium/policy/cel.py:185-223 | a rule sees the agent's own fields, its grants as they show, the request, the time and the result, or an empty one |
| PolicyLaws.GrantShownIff | packages/presidium/src/presidium/policy/cel.py:112-200 | a grant shows, in its place, exactly when it has not expired and its condition is empty or compiles and is True of agent, request and time |
| PolicyLaws.ComplainsIff | packages/presidium/src/presidium/policy/cel.py:112-200 | the conditions complained about are those, of grants not expired, that do not compile or raise |
| PolicyLaws.UnmatchedAnswer | packages/presidium/src/presidium/policy/cel.py:260-272 | when no enabled rule of the stage is True or raises the answer is Allow exactly when unmatched requests are allowed, and else a denial without a policy, with the configured enforcement and reason |
| PolicyLaws.WinnerAnswer | packages/presidium/src/presidium/policy/cel.py:225-258 | a winner that is True gives its own decision, name, reason, enforcement and approvers when not empty; one that raises a HARD denial under its name with the message |
| PolicyLaws.AppliesIff | packages/presidium/src/presidium/policy/cel.py:225-258 | a rule applies exactly when it is enabled, lists the stage, and its program is True or raises |
| Policy.CelPolicyEngine.GrantConditionHolds | packages/presidium/src/presidium/policy/cel.py:112-183 | the answer is a fresh compilation's, the cache stays in agreement, and a bad condition is warned about once in the engine's life |
| Policy.CelPolicyEngine.BuildActivation | packages/presidium/src/presidium/policy/cel.py:185-223 | rules see, in order, exactly the unexpired grants whose condition is empty or evaluates to True, whatever is cached |
| Policy.CelPolicyEngine.Evaluate | packages/presidium/src/presidium/policy/cel.py:225-272 | the answer is a function of the rules last loaded and the context, whatever loads and evaluations came before |
| PolicyLaws.WinnerDecides | packages/presidium/src/presidium/policy/cel.py:82-272 | the applying rule of greatest priority, the earliest loaded on ties, decides alone |
| PolicyLaws.WinnerExistsIff | packages/presidium/src/presidium/policy/cel.py:225-272 | there is such a rule exactly when some rule applies; otherwise the configured default is the answer |
| PolicyLaws.WinnerUnique | packages/presidium/src/presidium/policy/cel.py:107-108 | there is at most one |
| PolicyLaws.ErrorsFailClosed | packages/presidium/src/presidium/policy/cel.py:236-252 | a winning rule whose evaluation raises denies with HARD enforcement under its name |
| PolicyLaws.AnswerIsChoice | packages/presidium/src/presidium/policy/cel.py:82-272 | bucketing, stable sort and early exit pick the best rule of the plain list |
| PolicyLaws.InsertIsLocal | packages/presidium/src/presidium/policy/cel.py:82-110 | inserting one rule anywhere leaves every answer as it was, except where it outranks the old winner, and there the answer is its own |
| PolicyLaws.OrderIrrelevant | packages/presidium/src/presidium/policy/cel.py:107-108 | the load order matters to no answer when rules of equal priority are equal |
| PolicyLaws.InactiveGrantInvisible | packages/presidium/src/presidium/policy/cel.py:185-200 | an expired grant, or one whose condition is bad or not True, changes no answer by being there |
| Approval.CallbackApprovalProvider.RequestApproval | packages/presidium/src/presidium/approval.py:55-83 | auto-approve, then auto-deny, then the callback answer at once and touch nothing; otherwise one call is registered in both tables |
| Approval.CallbackApprovalProvider.Resume | packages/presidium/src/presidium/approval.py:85-99 | a woken call ends as its caller's cancellation, its timer or its decision says, and its id leaves both tables |
| Approval.CallbackApprovalProvider.DecideRequest | packages/presidium/src/presidium/approval.py:104-107 | a decision resolves the future under its id if that is not done, and does nothing else |
| Approval.CallbackApprovalProvider.ListPending | packages/presidium/src/presidium/approval.py:101-102 | the calls of the pending table are listed in the insertion order of their ids |
| ApprovalSafety.ImmediateReply | packages/presidium/src/presidium/approval.py:55-76 | auto_approve gives an approval for this id, else auto_deny a refusal, else a callback its own decision, each with the status that matches; a call waits exactly when none is set |
| ApprovalSafety.TablesAgree | packages/presidium/src/presidium/approval.py:79-99 | in every reachable state the two tables are the same, each entry a waiting call under its own id |
| ApprovalSafety.EveryStory | packages/presidium/src/presidium/approval.py:79-107 | in every interleaving a call's future, interruption, status and outcome follow from what has happened to it |
| ApprovalSafety.ApprovalSafe | packages/presidium/src/presidium/approval.py:79-107 | an approval is returned only if it was the first thing that happened to the call and no timer or cancellation came before wake-up |
| ApprovalSafety.ReturnedStatus | packages/presidium/src/presidium/approval.py:85-96 | a returned call timed out, with a refusal in the provider's name, exactly when its timer fired before wake-up, even after a decision; otherwise it is APPROVED or DENIED as the first decision approves or not |
| ApprovalSafety.StatusOnce | packages/presidium/src/presidium/approval.py:85-99 | a status leaves PENDING only at the call's own wake-up, once |
| ApprovalSafety.DecisionChangesIff | packages/presidium/src/presidium/approval.py:104-107 | a decision changes the state exactly when it finds an open future under its id |
| ApprovalSafety.InTableIff | packages/presidium/src/presidium/approval.py:82-107 | a call can be listed and decided exactly while no other call has registered or ended under its id since its own registration |
| ApprovalSafety.WaitingIffListed | packages/presidium/src/presidium/approval.py:79-102 | when no id is registered while it is pending, exactly the waiting calls are in the tables |
| ApprovalSafety.PendingIsWaiting | packages/presidium/src/presidium/approval.py:101-102 | then list_pending answers exactly the waiting calls, each once |
| ApprovalSafety.PendingInOrder | packages/presidium/src/presidium/approval.py:79-102 | list_pending keeps the order of registration: a new call goes last, a woken one is cut out, nothing else moves |
| ApprovalSafety.DecisionTakesEffect | packages/presidium/src/presidium/approval.py:79-107 | then a decision on an untouched waiting call is what it returns |
| ApprovalSafety.ReusedIdIsLost | packages/presidium/src/presidium/approval.py:97-99 | with one id used by two calls at once, the end of the first takes the second out of reach |
| Audit.InProcessAuditEnricher.GetGovernanceData | packages/presidium/src/presidium/audit.py:63-80 | an unexpired entry is answered as it is; otherwise the registry, and only a found record is cached |
| Audit.InProcessAuditEnricher.Emit | packages/presidium/src/presidium/audit.py:82-102 | the exact attempts made on the sink, the cache left, and whether the emit raises, for every path |
| AuditRuns.DataIs | packages/presidium/src/presidium/audit.py:63-95 | which name an emit looks up, read off the event, and where its data comes from: nowhere, an unexpired cache entry, or the registry, whose found answers are cached for one time-to-live |
| AuditRuns.AttachedIsFresh | packages/presidium/src/presidium/audit.py:63-80 | however emits interleave, attached data is the answer to a lookup the run made for that agent by then, less than cache_ttl before the cache check or after it |
| AuditRuns.ForwardedOnce | packages/presidium/src/presidium/audit.py:82-102 | every emit not waiting for the registry has been forwarded once, no other has |
| AuditRuns.DeliveryIsFaithful | packages/presidium/src/presidium/audit.py:82-102 | when the sink does not raise, exactly one event is delivered: the original, or its enriched form |
| AuditRuns.OnlyAddedIff | packages/presidium/src/presidium/audit.py:91-95 | the enriched event differs only by the added entry exactly when details is a dict or absent |
| AuditRuns.DeliveredOnce | packages/presidium/src/presidium/audit.py:89-102 | at most one event is delivered; two attempts are made exactly when the sink raised on the enriched form |
| AuditRuns.UninterruptedEmit | packages/presidium/src/presidium/audit.py:63-102 | an emit run without interruption does in the interleaved model what the class method does |

## Left out

- Clock reads: those within one call are one instant, except the two of `learn_from_history` and those around the audit
  lookup.
- Floating-point rounding: arithmetic is over `real`.
- JSON, ISO timestamps and SQL text: JSON values and rows are datatypes, a timestamp column holds the time itself, and
  INSERT OR REPLACE, UPDATE and DELETE are functions on tables.
- Row order of a SQLite listing: listings are compared as sets.
- Row scan order when two rows would share an agent_id: the column is unique.
- InMemoryRegistryClass.InMemoryRegistry.Register: the record is a value here, while the original stores and updates
  the caller's own object; the registry is taken to own it.
- Audit cache sharing: the original hands the same governance dict to every event; the model treats it as a value.
- SqliteRows.RowRoundTrip: capabilities and metadata are part of one payload column, whose JSON is not encoded.
- CheckpointedReplay.FirstEventLater: one way only after the first event, since later clamps can bring two different
  values together; `FirstEventNowIff` is exact at it.
- WindowedTrust.SameWindowIff: is about caps of None, zero or more; a negative cap slices from the front.
- WriteLock.LockOrderSerialises: is about every column but the two of trust, which `list_agents` writes back without
  the lock; scorers, and trust columns without a scorer, are in `TrustUnderLock.TrustSerialises`.
- WriteLock.SerialIsTheCall: rows and scorers; the trust_events log and the answers are not part of the interleaving.
- BackendSimulation.StepSim: is about calls that register no name or id already present; `RegisterKeepsSimIff` says
  exactly which registrations keep the backends related.
- CheckpointedReplay.DecaySemigroup: the power law of 0.5**x is a hypothesis (`HalvingLaw`) for exponential decay.
- Approval callback and status: a callback's own awaiting is one step, and each call has its own request object.
- Postgres backend, HTTP gateway, adapters, CLI, telemetry, benchmarks and YAML loading: wiring around the same logic.
- Signature verification, scoring spec hashes, spec pinning and event id generation: foreign functions; ids are
  arguments.
- Optional constructor arguments: defaults are resolved before the model's constructors are called.
- `recent_events`, `spec`, `flush`, `close` and similar read-outs: only easy members.
- AgentRecord fields without behaviour (description, version, capabilities, metadata): one payload field.
- An audit event whose `agent` is not text: it is forwarded as it is, without the lookup that cannot find it.
- CEL conversion and compiler faults other than a parse error, which `load_policies` and conditions do not catch.
- `timeout_seconds`: the timer of a waiting call may fire at any step.
- A log line's wording: warnings are the list of conditions warned about.
