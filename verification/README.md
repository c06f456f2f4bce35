# Verified model of the trading platform's core

The platform serves many tenants: a control plane provisions and migrates them, the back end keeps
their catalogue, switches, policies, releases and books, and the front end shows amounts. This
project models the parts of it in which steps depend on each other, and proves what they keep over
all inputs, all runs and all interleavings.

| file | component |
|---|---|
| `template_cycles.dfy` | cycle check of specification templates: recursion over a shared set and path |
| `tenant_migration.dfy`, `migration_orchestrator.dfy` | tenant migration: interleaved protocol, and the orchestrator object that follows it |
| `money_text.dfy`, `money_forms.dfy` | amount printer and parser; which characters count and what each form of text becomes |
| `provisioning_saga.dfy` | provisioning with compensation, for any step list |
| `schema_migrations.dfy`, `schema_runs.dfy` | schema migration runner under crashes and lost replies; what a single run does |
| `feature_switches.dfy`, `feature_traces.dfy`, `feature_answers.dfy` | feature switch guard: interleaved cache protocol and guard object; where a cached answer comes from and how old it can be; how long an answer holds |
| `fin_money.dfy`, `treasury.dfy`, `treasury_runs.dfy` | money values; treasury accounts and transfers, and what runs of calls keep |
| `ledger.dfy`, `ledger_services.dfy` | settlements, vouchers, payments and receipts: what each call does, and the services |
| `ledger_runs.dfy`, `settlement_runs.dfy`, `payment_runs.dfy`, `callback_runs.dfy`, `receivable_runs.dfy`, `receipt_runs.dfy`, `voucher_runs.dfy`, `voucher_status.dfy` | what every run of these calls keeps |
| `ledger_examples.dfy` | runs that reach the exceptional cases |
| `negative_policy.dfy` | negative-stock policy and its audit log |
| `seal_gates.dfy` | release gates and the final verdict |
| `version_diff.dfy` | version diffs as patches |
| `aging.dfy` | aging analysis |
| `results.dfy`, `sums.dfy` | Option and Result; sums over table rows |

How to read it. A component that changes state is a class whose methods are proved equal to a
specification function on values (`Do`, `Step`, `Run`, `Model()`); the theorems are about that
function, over every run. Code that raises returns a `Result`. A service call is one transaction: an
exception rolls the session back (`backend/app/infrastructure/db/session.py:47-55`), so an error
leaves the database as it was. Times, fresh ids, failures of the store, lost replies and the order of
concurrent actions are inputs, and the theorems hold for all of them. Amounts in the books are whole
hundredths; amounts that callers pass in are reals, so the precision check is part of the model.

Rules taken from elsewhere than the services: the aggregates under `backend/app/domain/fin/aggregates`
(status transitions, conservation checks), the repositories' upserts, and the unique and immutable
gate table (`backend/alembic/versions/068_rel_gate_and_rollback.py:29-40`).

Where the code differs from what one may expect of it, the model follows the code and a theorem says
exactly when the expectation holds:

- A tenant without a row is migrated with nothing disabled (`OneAtATimeIsSafeIffRowExists`, run in `MissingRowIsUnsafe`), and a second call on the same tenant can reactivate it during a synchronisation (`BeginIsSafeIffIdle`, run in `TwoCallsCopyLiveData`).
- A failed freeze write leaves the tenant reported as frozen forever (`FrozenAfterReturnIffFreezeWriteFailed`, run in `FailedFreezeRun`). A finished migration makes a deprovisioned tenant active (`CallLeavesActive`).
- A currency code with digits, dots or minus signs breaks the amount round trip (`RoundTripsIffSymbolNotNumeric`, inputs in `NumericSymbolBreaks`).
- A minus sign before a lone dot is printed as zero without its sign (`PrinterStopsAtSecondDotIff`).
- Up-scripts are executed again after a crash before their record (`RecoversIffRerunnable`, run in `CrashThenRerun`).
- A cached answer is not bound to the last five time units, nor to any one state of the table: its life counts from its store, and a check reads twice before that (`DecidedIsDirectIffNoChange`, runs in `StaleHit` and `TornRead`). An answer holds for five time units only if it is new and no other check of the switch can overwrite it (`AnswerHoldsIff`). A check in flight also writes an old answer back after an invalidation (`InvalidationHoldsIffNoOldFlight`, run in `InvalidatedAnswerReturns`). The guard's documentation names a Redis level; the code has none.
- Moving funds inside one account would create money; only the request's check prevents it (`MoveConservesIffDistinct`). Transfers in other currencies than CNY never execute, because the amount is reloaded as CNY (`ExecuteSucceedsIff`, run in `DollarTransferRun`).
- Cancelling a confirmed settlement keeps its voucher (`PurchasePayablesTotal`, run in `CancelledPurchaseRun`); the plain confirmation of a cross-tenant settlement without receiver books the payable only (`CrossTenantNetsIff`, run in `ReceiverlessRun`).
- Several payments can be requested against the same open amount; the later callbacks are refused after the bank has paid, and for good (`AllAcceptedIff`, `RefusedForever`, run in `RefusedCallbackRun`).
- Write-off lines naming a voucher that does not exist yet are lost (`ReceivableOfEveryRun`, `WriteOffBooksAllIff`, run in `LostLineRun`).
- A final verdict does not count its gates (`FinalPassIsCompleteIffSix`, run in `OneRetriedGateCanPass`).
- Vouchers that are not yet due are shown in the oldest bucket (`NeverYoungerIff`), and vouchers past the first 10000 are not shown (`TotalIsCompleteIff`).

## Model

| member | source | states |
|---|---|---|
| `TemplateCycles.ValidateNoTemplateCycle` | backend/app/application/group_catalog/specification_instance_validator.py:28-65 | The top-level check raises if and only if a cycle is reachable from the start; the reported list is a closed walk of dependency edges that can be reached from the start, and a silent return comes with a ranking that lists the start |
| `TemplateCycles.CycleSearch.Visit` | backend/app/application/group_catalog/specification_instance_validator.py:47-65 | One recursive call on the shared set and path: it restores the path on return, only adds to the visited set, leaves the template ranked below everything it needs, and raises only on an edge back into the path; it terminates on the unvisited templates |
| `TemplateCycles.EnterKeepsState` | backend/app/application/group_catalog/specification_instance_validator.py:57-58 | Adding a template to the set and the path keeps: visited is finished plus path, finished is ranked, path is a walk |
| `TemplateCycles.LeaveKeepsState` | backend/app/application/group_catalog/specification_instance_validator.py:60-65 | Once all dependencies are finished, popping a template and ranking it last keeps the same invariant |
| `TemplateCycles.RankExcludesCycles` | backend/app/application/group_catalog/specification_instance_validator.py:54-55 | Why finished templates may be skipped: a ranking that lists a template rules out every cycle reachable from it |
| `TemplateCycles.RankedWalkNeverReturns` | backend/app/application/group_catalog/specification_instance_validator.py:54-65 | No walk that starts at a ranked template comes back to one of its own templates |
| `TemplateCycles.RaisedIsReachableCycle` | backend/app/application/group_catalog/specification_instance_validator.py:47-52 | The path from the repeated template on, closed by it, is a real cycle, and the path before it leads there from the start |
| `TemplateCycles.FirstIndex` | backend/app/application/group_catalog/specification_instance_validator.py:48 | The index used to cut the path is the first occurrence |
| `MigrationProtocol.PhasesOfEveryRun` | control-plane/internal/orchestrator/migration.go:65-158 | In every interleaving of calls the phases of each task are a first part of the list Pending, Freezing, FullSync, IncrementalSync, Verifying, Switching, Completed, or its first 3 to 6 entries followed by RolledBack; a returned call attempted exactly one unfreeze and ended Completed or RolledBack, unless an event of the run is its freeze write and that was refused or its answer lost: then it failed without an unfreeze and the phase stays Freezing |
| `MigrationProtocol.RollsBackIffStageFailed` | control-plane/internal/orchestrator/migration.go:84-105 | In every run a call rolls back if and only if one of its stages answered a fault, and its failure reason is that fault |
| `MigrationProtocol.SucceedsIffNothingFailed` | control-plane/internal/orchestrator/migration.go:65-116 | In every run a returned call has succeeded if and only if neither its freeze write nor any stage failed |
| `MigrationProtocol.FrozenWhileMigrating` | control-plane/internal/orchestrator/migration.go:165-175 | In every run a tenant is reported frozen if and only if one of its tasks has begun its freeze and is neither completed nor rolled back |
| `MigrationProtocol.RunKeepsRows` | control-plane/internal/store/tenant_state.go:60-65 | No run adds or removes a tenant's row |
| `MigrationProtocol.FrozenAfterReturnIffFreezeWriteFailed` | control-plane/internal/orchestrator/migration.go:165-175 | Once all calls of a tenant have returned, the tenant is reported frozen if and only if the freeze write of one of them, an event of the run, was refused or its answer lost |
| `MigrationProtocol.GaveUpIffFreezeWriteFailed` | control-plane/internal/orchestrator/migration.go:79-82 | A call returns from its freeze, in the phase Freezing, if and only if its freeze write failed |
| `MigrationProtocol.FailedFreezeLastsForever` | control-plane/internal/orchestrator/migration.go:79-82 | After a failed freeze write the tenant is reported frozen, whatever events follow |
| `MigrationProtocol.FailedFreezeRun` | control-plane/internal/orchestrator/migration.go:79-82 | A run of three events that reaches this for any tenant, with no call left |
| `MigrationProtocol.TwoCallsCopyLiveData` | control-plane/internal/orchestrator/migration.go:65-158 | From the start, two calls on a tenant with a row have a run that copies data while the tenant is active |
| `MigrationProtocol.LastWriteDecides` | control-plane/internal/orchestrator/migration.go:118-127 | In every run the stored status is what the last effective status write says: disabled for a freeze, active for an unfreeze |
| `MigrationProtocol.NoWriteNoChange` | control-plane/internal/orchestrator/migration.go:118-127 | Without an effective write the stored status is the old one |
| `MigrationProtocol.CallLeavesActive` | control-plane/internal/orchestrator/migration.go:108-127 | A single call whose writes take effect, completed or rolled back, leaves the tenant active whatever its status was before, deprovisioned and failed included |
| `MigrationProtocol.RunKeepsExclusive` | control-plane/internal/orchestrator/migration.go:65-158 | With one unfinished call per tenant at a time, every event keeps the invariant that a call past its freeze write finds the stored status disabled |
| `MigrationProtocol.OneAtATimeIsSafeIffRowExists` | control-plane/internal/store/tenant_state.go:60-65 | One call at a time keeps every synchronising or verifying task's tenant disabled, in every interleaving, if and only if the tenant has a row: an update of no row reports no error |
| `MigrationProtocol.MissingRowIsUnsafe` | control-plane/internal/store/tenant_state.go:60-65 | For every tenant without a row there is a run with one call in which a stage begins with nothing disabled |
| `MigrationProtocol.BeginIsSafeIffIdle` | control-plane/internal/orchestrator/migration.go:65-77 | Starting a call on a tenant with a row keeps every continuation safe if and only if no other call on that tenant is unfinished |
| `MigrationProtocol.OverlapIsUnsafe` | control-plane/internal/orchestrator/migration.go:118-127 | With any other call unfinished, wherever it stands, some continuation has the new call synchronising while the stored status is active |
| `MigrationProtocol.UnfinishedCanActivate` | control-plane/internal/orchestrator/migration.go:124-127 | Every unfinished call has a way to end that sets its tenant active and touches no other call |
| `MigrationProtocol.StepKeepsWellFormed` | control-plane/internal/orchestrator/migration.go:79-158 | Every single action of every call keeps the relation between its position, phase history, unfreeze count and failure reason |
| `MigrationOrchestration.MigrationOrchestrator.Migrate` | control-plane/internal/orchestrator/migration.go:65-116 | The call with its early returns is exactly its script of atomic actions in the protocol; it answers ok if and only if the freeze write is done and no stage faults |
| `MigrationOrchestration.MigrationOrchestrator.CallOutcome` | control-plane/internal/orchestrator/migration.go:65-116 | What a whole undisturbed call leaves, by its answers: other tasks as they were, phase Completed, RolledBack with the first fault as reason, or Freezing after a failed freeze write, and the tenant active, or disabled or as before where writes were refused |
| `MigrationOrchestration.MigrationOrchestrator.FreezeWrites` | control-plane/internal/orchestrator/migration.go:118-122 | Sets the phase, then writes the status; the two actions of the protocol, returning on a failed write |
| `MigrationOrchestration.MigrationOrchestrator.RunStage` | control-plane/internal/orchestrator/migration.go:129-151 | A stage sets its phase, then faults into rollback or moves to the next position |
| `MigrationOrchestration.MigrationOrchestrator.RunStages` | control-plane/internal/orchestrator/migration.go:84-115 | The four stages in order with a rollback at the first fault are the rest of the script |
| `MigrationOrchestration.MigrationOrchestrator.Rollback` | control-plane/internal/orchestrator/migration.go:153-158 | Phase and reason first, then the one unfreeze, whose error is dropped |
| `MigrationOrchestration.MigrationOrchestrator.UnfreezeWrites` | control-plane/internal/orchestrator/migration.go:124-127 | One status write, whatever its outcome |
| `MigrationOrchestration.MigrationOrchestrator.Complete` | control-plane/internal/orchestrator/migration.go:108-115 | The unfreeze comes before the completed phase |
| `MigrationOrchestration.MigrationOrchestrator.IsWriteFrozen` | control-plane/internal/orchestrator/migration.go:165-175 | The scan of the task map, in any order, answers whether some task of the tenant is in one of the five frozen phases |
| `MigrationOrchestration.MigrationOrchestrator.UpdateStatus` | control-plane/internal/store/tenant_state.go:60-65 | The write changes an existing row or nothing; a missing row is no error |
| `MoneyText.RoundTrip` | frontend/src/utils/finMoney.ts:10-37 | For every text not printed as a dash and every symbol without digits, dots and minus signs: parsing the printed text gives sign, whole digits and two decimals of its reading, and printing that gives the same text |
| `MoneyText.ListedCurrencyRoundTrip` | frontend/src/utils/finMoney.ts:1-37 | The round trip for each of the six listed currencies |
| `MoneyText.RoundTripsIffSymbolNotNumeric` | frontend/src/utils/finMoney.ts:11 | For a currency that is not listed its code is the symbol: every amount survives the round trip if and only if the code has no digit, dot or minus |
| `MoneyText.NumericSymbolBreaks` | frontend/src/utils/finMoney.ts:11 | Every symbol with a numeric character breaks the round trip of 0.00 or of 1.00 |
| `MoneyText.FormatShowsReading` | frontend/src/utils/finMoney.ts:10-23 | The printer's branches together print one canonical reading: sign, symbol, grouped digits, two decimals; a dash for blank input only |
| `MoneyText.UngroupGroup` | frontend/src/utils/finMoney.ts:20 | Removing the commas recovers the whole part |
| `MoneyText.GroupShape` | frontend/src/utils/finMoney.ts:20 | The first group has one to three digits, every other exactly three |
| `MoneyText.CommaRuleIsRegex` | frontend/src/utils/finMoney.ts:20 | The comma rule equals the lookahead expression read literally: not at the start and followed by a positive multiple of three digits up to a non-digit |
| `MoneyText.ParseIdempotent` | frontend/src/utils/finMoney.ts:25-37 | Parsing a parsed text changes nothing, for every text |
| `MoneyText.ParseTruncates` | frontend/src/utils/finMoney.ts:25-37 | On well-formed decimals the parser keeps the sign and truncates toward zero, losing at least 0 and less than 0.01 |
| `MoneyText.FormatShowsParsedValue` | frontend/src/utils/finMoney.ts:10-37 | On well-formed decimals the printed amount is worth exactly what the parser returns for the same text |
| `MoneyText.ParserStopsAtSecondDot` | frontend/src/utils/finMoney.ts:25-37 | The parser reads every text up to its second dot only |
| `MoneyText.PrinterStopsAtSecondDotIff` | frontend/src/utils/finMoney.ts:10-23 | So does the printer, if and only if the text is not a minus sign before a lone dot without digits |
| `MoneyForms.DecimalIsPrinted` | frontend/src/utils/finMoney.ts:12-22 | Blanks, an optional minus, digits, a dot, digits and blanks print as the minus, the symbol, the grouped whole part or 0, a dot, and the decimals cut or filled with zeros to two |
| `MoneyForms.WholeIsPrinted` | frontend/src/utils/finMoney.ts:12-22 | Without a dot the decimals are 00 |
| `MoneyForms.PrinterIgnores` | frontend/src/utils/finMoney.ts:15 | Behind the first character that is not blank, every character but digits and dots may be left out without changing what is printed |
| `MoneyForms.NoDigitsPrintZero` | frontend/src/utils/finMoney.ts:16 | A text without digits and with at most one dot prints as the symbol and 0.00, without a sign |
| `MoneyForms.DashIff` | frontend/src/utils/finMoney.ts:12-13 | A bare dash is printed if and only if the text is blanks with at most one minus among them |
| `MoneyForms.CurrencyIsPrinted` | frontend/src/utils/finMoney.ts:1-11 | The symbols of the six listed currencies; every other currency prints itself |
| `MoneyForms.DecimalIsParsed` | frontend/src/utils/finMoney.ts:28-36 | A signed decimal is parsed to its sign, its whole part or 0, and its decimals cut to two, none when there are none |
| `MoneyForms.WholeIsParsed` | frontend/src/utils/finMoney.ts:26-36 | A signed whole number is parsed to itself, an empty text or a lone minus to 0 |
| `MoneyForms.ParserIgnores` | frontend/src/utils/finMoney.ts:27 | Every character but digits, dots and minus signs may be left out, wherever it stands |
| `MoneyForms.CharactersAreListed` | frontend/src/utils/finMoney.ts:12-15 | The white space that trim removes and the digits, character by character |
| `ProvisioningSaga.ProvisioningOrchestrator.Provision` | control-plane/internal/orchestrator/provisioning.go:41-125 | For any step list: the run stops at the first failing step, its trace is the executions up to it, the compensations backwards and the status write, its final state is the fold of exactly these, and the error names the step |
| `ProvisioningSaga.ProvisioningOrchestrator.CompensateCompleted` | control-plane/internal/orchestrator/provisioning.go:104-109 | The countdown loop compensates the completed steps last in first out and passes over failures |
| `ProvisioningSaga.ProvisioningOrchestrator.Abort` | control-plane/internal/orchestrator/provisioning.go:103-113 | Compensations, then one status write when a store is configured |
| `ProvisioningSaga.ProvisioningOrchestrator.RunExecute` | control-plane/internal/orchestrator/provisioning.go:101-102 | One execution changes the state as its step says and is logged with its outcome |
| `ProvisioningSaga.TraceShape` | control-plane/internal/orchestrator/provisioning.go:100-116 | Whatever fails, the trace of a failed run is execute 0 to k, then compensate k - 1 to 0, each exactly once, then the status write |
| `ProvisioningSaga.FailedRunRestores` | control-plane/internal/orchestrator/provisioning.go:100-116 | If compensations invert their steps and a failing step has no effect, a failed run leaves the state it began with, or what the status write makes of that state when a store is configured |
| `ProvisioningSaga.FailedRunMarks` | control-plane/internal/orchestrator/provisioning.go:110-113 | With a store, a failed run leaves the status write applied to what it leaves without one, and its trace is that one followed by the write |
| `ProvisioningSaga.SuccessTrace` | control-plane/internal/orchestrator/provisioning.go:100-124 | A successful run executes each step once, in order, and nothing else: no compensation and no failed status, with or without a store |
| `ProvisioningSaga.SuccessIsUndone` | control-plane/internal/orchestrator/provisioning.go:100-124 | With inverting steps, compensating all of them after a successful run restores the first state, so the run leaves what its steps did and nothing more |
| `ProvisioningSaga.SuccessAcquiresAll` | control-plane/internal/orchestrator/provisioning.go:100-124 | With one resource per step a successful run adds exactly all of them, with or without a store |
| `ProvisioningSaga.UndoForward` | control-plane/internal/orchestrator/provisioning.go:104-109 | Compensating backwards undoes any number of inverting steps |
| `ProvisioningSaga.ResidueOfFailedRun` | control-plane/internal/orchestrator/provisioning.go:103-113 | With one resource per step, a failed run leaves exactly the resources whose compensation failed, so nothing if and only if all compensations succeeded |
| `SchemaMigrations.MigrationRunner.Run` | control-plane/internal/store/migrations.go:25-56 | The loop with its early returns, under faults at any query, changes schema and record table as the release specification says; without a connection it changes nothing |
| `SchemaMigrations.MigrationRunner.EnsureMigrationTable` | control-plane/internal/store/migrations.go:58-66 | The table is there afterwards unless the statement was refused; a lost reply leaves it there |
| `SchemaMigrations.MigrationRunner.ExecuteUp` | control-plane/internal/store/migrations.go:45-48 | The script's effect stays when only the reply is lost |
| `SchemaMigrations.MigrationRunner.RecordMigration` | control-plane/internal/store/migrations.go:75-79 | Recording is a set insertion, repeatable, possibly done without an answer |
| `SchemaMigrations.RecordedIsPrefix` | control-plane/internal/store/migrations.go:25-79 | After any runs of any releases, failing anywhere: the recorded versions are those of a first part of the list, whose scripts ran in order at least once each, and at most the next script ran without its record |
| `SchemaMigrations.RerunnableRecovers` | control-plane/internal/store/migrations.go:25-79 | If each script may be repeated where it stands, the first successful run after any failures gives the schema and records of one in-order pass |
| `SchemaMigrations.RecoversIffRerunnable` | control-plane/internal/store/migrations.go:45-51 | Every release recovers from every failure pattern if and only if every script may be repeated where it stands in the list |
| `SchemaMigrations.CrashThenRerun` | control-plane/internal/store/migrations.go:45-51 | A crash between a script and its record makes the next run execute the script again, so recovery needs that to be harmless |
| `SchemaMigrations.SuccessSettles` | control-plane/internal/store/migrations.go:25-56 | After any failures, once a run of the whole list answers without error all versions are recorded, and no later run of any release executes or changes anything |
| `SchemaMigrations.SettledForever` | control-plane/internal/store/migrations.go:35-43 | With all versions recorded, no run of any release executes or changes anything |
| `SchemaRuns.RunSucceedsIff` | control-plane/internal/store/migrations.go:25-56 | A run answers without error if and only if the table statement, every query and, for each migration not recorded, its script and its record are fine; a failed table statement changes nothing else |
| `SchemaRuns.FineRun` | control-plane/internal/store/migrations.go:35-54 | Such a run, from any database, executes and records exactly the migrations that were not recorded, in the order of the list |
| `SchemaRuns.StoppedRun` | control-plane/internal/store/migrations.go:35-54 | A run stops at the first call that is not fine: everything before it is done, nothing after it, and its own effect depends on whether it was refused or only its answer lost |
| `FeatureTraces.HitRefinesDirect` | backend/app/application/biz_ops/feature_switch_guard.py:40-79 | In every interleaving of checks, table changes, clock ticks and invalidations, a cached answer was stored less than 5 time units ago by one check of that switch; it is an allow degradation after a failed read, or the own row of the table at the check's first event with the parent row of the table at its second; if the table did not change between the first read and the store, it is the direct evaluation of the table current at the store, and of the current table if that has not changed in the last 5 time units |
| `FeatureAnswers.AnswerRefinesDirect` | backend/app/application/biz_ops/feature_switch_guard.py:40-79 | The same for the value a check returns: in every run it is the cached value with that origin and age, or the direct evaluation of the current table, or an allow degradation after a failed read; a check raises if and only if nothing is cached, a read it needs fails and the strategy is deny |
| `FeatureAnswers.OffIff` | backend/app/application/biz_ops/feature_switch_guard.py:54-76 | A switch evaluates to off if and only if its row says anything but true, or it is a sub-feature whose parent row is there and says anything but true |
| `FeatureAnswers.AnswerHolds` | backend/app/application/biz_ops/feature_switch_guard.py:47-79 | What a check answers from the table is the answer of every check of that switch for the next five time units, whatever the table and the read faults are by then, if its tenant is not invalidated and no other check of the switch is in flight |
| `FeatureAnswers.CachedAnswerHolds` | backend/app/application/biz_ops/feature_switch_guard.py:49-52 | A check that hits returns the stored value, and so does every check until five time units after it was stored, under the same conditions |
| `FeatureAnswers.AnswerHoldsIff` | backend/app/application/biz_ops/feature_switch_guard.py:47-79 | A cached answer holds for five time units from now, in every continuation without an invalidation of the tenant, if and only if it was stored at this moment and every check of the switch in flight can only confirm it |
| `FeatureAnswers.ExpiredAnswer` | backend/app/application/biz_ops/feature_switch_guard.py:49-56 | Exactly when an entry expires the next check answers from the table |
| `FeatureTraces.CleanCheckIsDirect` | backend/app/application/biz_ops/feature_switch_guard.py:54-78 | An entry of a check during which the table did not change is the direct evaluation of the table at its timestamp |
| `FeatureTraces.DecidedIsDirectIffNoChange` | backend/app/application/biz_ops/feature_switch_guard.py:54-78 | What a check is about to store is the direct evaluation of the table at that moment, whatever the table changes to, if and only if the table does not change between its first read and its store |
| `FeatureTraces.StaleHit` | backend/app/application/biz_ops/feature_switch_guard.py:54-79 | A run in which an answer is given that has been wrong for any length of time: the life of an entry counts from its store, not from its read |
| `FeatureTraces.TornRead` | backend/app/application/biz_ops/feature_switch_guard.py:55-69 | A run in which an answer is the direct evaluation of no table: own row and parent row come from different states |
| `FeatureTraces.InvalidatedAnswerReturns` | backend/app/application/biz_ops/feature_switch_guard.py:78-103 | A run in which the old answer is back right after the invalidation that followed the change |
| `FeatureSwitches.KeyInjective` | backend/app/application/biz_ops/feature_switch_guard.py:47 | A tenant id without colon makes cache keys collision free |
| `FeatureSwitches.PrefixIsTenant` | backend/app/application/biz_ops/feature_switch_guard.py:100-101 | The prefix test matches exactly the tenant's own keys |
| `FeatureSwitches.InvalidateDropsExactlyTenant` | backend/app/application/biz_ops/feature_switch_guard.py:94-103 | Invalidating a tenant removes all its entries and keeps every other entry unchanged; invalidating without a tenant removes all entries |
| `FeatureSwitches.InvalidationHoldsIffNoOldFlight` | backend/app/application/biz_ops/feature_switch_guard.py:54-103 | After an invalidation every later cached answer is based on the current table or a newer one if and only if no check in flight has already read an older table |
| `FeatureSwitches.OldFlightLands` | backend/app/application/biz_ops/feature_switch_guard.py:55-78 | A check that has read an old row writes the old answer back after an invalidation |
| `FeatureSwitches.RunKeepsFresh` | backend/app/application/biz_ops/feature_switch_guard.py:54-78 | Without such a check, freshness is kept by every run |
| `FeatureSwitches.RunKeepsWellFormed` | backend/app/application/biz_ops/feature_switch_guard.py:54-78 | Every entry sits under the key of its tenant and feature, is not from the future and carries the decision of the states it was read from, in every run |
| `FeatureSwitches.CheckOutcome` | backend/app/application/biz_ops/feature_switch_guard.py:40-79 | An uninterrupted check is a five-event run of the interleaved model, with the outcome of hit, evaluation, degradation or refusal |
| `FeatureSwitches.FeatureSwitchGuard.Check` | backend/app/application/biz_ops/feature_switch_guard.py:40-79 | The method changes its dictionary exactly as that run does and returns the same answer, or raises when reading fails under the deny strategy |
| `FeatureSwitches.FeatureSwitchGuard.Evaluate` | backend/app/application/biz_ops/feature_switch_guard.py:54-76 | Own flag, forced off by a disabled parent, on without a row; no value when a needed read fails |
| `FeatureSwitches.FeatureSwitchGuard.Enforce` | backend/app/application/biz_ops/feature_switch_guard.py:81-92 | Passes if and only if the check answers true; a refusal and an off switch both raise |
| `FeatureSwitches.FeatureSwitchGuard.InvalidateCache` | backend/app/application/biz_ops/feature_switch_guard.py:94-103 | Clears everything, or exactly the keys with the tenant's prefix |
| `FinMoney.FromDecimal` | backend/app/domain/fin/value_objects/money.py:20-45 | A money value exists exactly for amounts that are not negative and have at most two decimals, and is worth that amount |
| `Treasury.RunConservesMoney` | backend/app/application/fin/treasury_service.py:43-277 | Over every sequence of create, request, approve, execute, freeze and unfreeze, each currency's balances total its opening balances |
| `Treasury.RunReconcilesAccounts` | backend/app/application/fin/treasury_service.py:224-277 | Over every sequence each account's balance is its opening balance plus successful incoming minus successful outgoing transfers, each counted once, and covers its frozen amount |
| `Treasury.MoveFundsConserves` | backend/app/application/fin/treasury_service.py:235-245 | With distinct accounts, reading both rows before saving either keeps every currency's total |
| `Treasury.MoveConservesIffDistinct` | backend/app/application/fin/treasury_service.py:235-245 | The same code keeps the total if and only if the accounts differ or the amount is zero: on one account the second save overwrites the first and creates money |
| `Treasury.SuccessIsFinal` | backend/app/application/fin/treasury_service.py:224-249 | No later call changes a successful transfer, so it moves money once |
| `Treasury.ExecuteSucceedsIff` | backend/app/application/fin/treasury_service.py:224-249 | An execution succeeds if and only if the transfer is approved, both accounts exist in CNY and the source's unfrozen balance covers it; amounts are reloaded as CNY, so transfers in another currency never execute |
| `Treasury.ExecuteReconciles` | backend/app/application/fin/treasury_service.py:224-249 | One execution changes each account by what its transfer credits and debits, also when seen from an account on neither side |
| `TreasuryRuns.FrozenMoneyStays` | backend/app/application/fin/treasury_service.py:224-277 | From every reachable state, while the account is not unfrozen, no calls bring its balance below what is frozen |
| `TreasuryRuns.TransferFollowsCalls` | backend/app/application/fin/treasury_service.py:163-249 | In every run each transfer was requested between two different accounts for its amount, which was available then, approved by the one approver it names, and executed, as far as its status says |
| `TreasuryRuns.DollarTransferRun` | backend/app/application/fin/treasury_service.py:224-249 | A run from an empty treasury: between dollar accounts a transfer is requested and approved, but its execution raises |
| `TreasuryRuns.UnfreezeUndoesFreeze` | backend/app/application/fin/treasury_service.py:251-277 | Whatever could be frozen can be unfrozen, and that restores the database |
| `TreasuryRuns.FreezeSucceedsIff` | backend/app/application/fin/treasury_service.py:251-263 | A freeze succeeds if and only if the currency is the account's and the amount is available |
| `TreasuryRuns.UnfreezeSucceedsIff` | backend/app/application/fin/treasury_service.py:265-277 | An unfreeze succeeds if and only if the currency is the account's and the amount is frozen |
| `TreasuryRuns.CreateAcceptedIff` | backend/app/application/fin/treasury_service.py:43-66 | An account is created if and only if its number is new and its opening balance is not negative with at most two decimals |
| `TreasuryRuns.RequestAcceptedIff` | backend/app/application/fin/treasury_service.py:163-201 | A transfer is accepted if and only if its number is new, its amount is exact, in the source's currency and at most its balance minus what is frozen, and the accounts differ |
| `TreasuryRuns.ApproveAcceptedIff` | backend/app/application/fin/treasury_service.py:203-222 | A transfer is approved if and only if it waits for approval |
| `TreasuryRuns.FrozenReconciles` | backend/app/application/fin/treasury_service.py:251-277 | In every run an account's frozen amount is what accepted freezes of its number added minus what accepted unfreezes took |
| `TreasuryRuns.AccountWasCreated` | backend/app/application/fin/treasury_service.py:43-66 | In every run each account has the tenant, number, currency and opening balance of the call that created it |
| `TreasuryRuns.NumbersAreUnique` | backend/app/application/fin/treasury_service.py:43-66 | In every run no two accounts have one number, and looking a number up finds its account |
| `Treasury.TreasuryService.CreateTreasuryAccount` | backend/app/application/fin/treasury_service.py:43-66 | New row or error, with the state of the specification; duplicates and bad amounts change nothing |
| `Treasury.TreasuryService.RequestTreasuryTransfer` | backend/app/application/fin/treasury_service.py:163-201 | Checks in source order: duplicate, source account, amount, currency, available balance, distinct accounts |
| `Treasury.TreasuryService.ApproveTreasuryTransfer` | backend/app/application/fin/treasury_service.py:203-222 | Only a pending transfer is approved |
| `Treasury.TreasuryService.ExecuteTreasuryTransfer` | backend/app/application/fin/treasury_service.py:224-249 | Four saves in order; an error after the first leaves the database as before |
| `Treasury.TreasuryService.FreezeAccount` | backend/app/application/fin/treasury_service.py:251-263 | Adds to the frozen amount within the available balance, or raises and changes nothing |
| `Treasury.TreasuryService.UnfreezeAccount` | backend/app/application/fin/treasury_service.py:265-277 | Takes from the frozen amount at most what is frozen, or raises and changes nothing |
| `Treasury.TreasuryService.GetBalanceSummary` | backend/app/application/fin/treasury_service.py:140-161 | Over the tenant's accounts, of one currency if asked for, at most 10000: with accounts as every run leaves them it never raises, balance and frozen are the sums over the accounts listed and available is their difference; up to the limit they are the sums over all matching accounts, in whatever order they are listed |
| `Treasury.TreasuryService.AddUp` | backend/app/application/fin/treasury_service.py:148-154 | The three accumulators of the loop; it raises exactly when a row has more frozen than its balance |
| `Treasury.ListedTotal` | backend/app/application/fin/treasury_service.py:145-154 | The total of the listed accounts does not depend on their order |
| `LedgerRuns.PayableOfEveryRun` | backend/app/application/fin/payment_service.py:146-180 | In every run a payable is its confirmed settlement's amount, split into paid and open, and the paid part is the sum of the successful payments naming it |
| `ReceivableRuns.ReceivableOfEveryRun` | backend/app/application/fin/receipt_service.py:59-96 | In every run receivable is received plus open; received is at most the sum of the written-off lines naming the voucher, and all of it if and only if no accepted write-off named it, with an amount, before it was booked |
| `ReceiptRuns.ReceiptsCoverWriteOffs` | backend/app/application/fin/receipt_service.py:80-94 | In every run the lines of each receipt total at most its amount, and all receivables together have received at most the amounts of the receipts written off |
| `ReceiptRuns.WriteOffAcceptedIff` | backend/app/application/fin/receipt_service.py:59-96 | In every run a write-off is accepted if and only if the receipt is confirmed, there are lines, their amounts are exact and total at most the receipt, and each voucher that exists has open what all the lines naming it give |
| `ReceiptRuns.ReceiptFollowsCalls` | backend/app/application/fin/receipt_service.py:43-96 | In every run each receipt was recorded with its amount, confirmed, and written off with its lines, in this order, as far as its status says |
| `ReceiptRuns.LinesFitIff` | backend/app/application/fin/receipt_service.py:90-94 | Lines can be applied one by one if and only if each existing voucher has open the sum of the lines naming it |
| `LedgerRuns.ReceivedIsApplied` | backend/app/application/fin/receipt_service.py:90-94 | In every run received is the sum of the written-off lines that found the voucher, repeated lines included |
| `LedgerRuns.PurchasePayablesTotal` | backend/app/application/fin/settlement_service.py:159-266 | In every run purchase payables total the purchases confirmed now plus those cancelled after confirmation; they total the confirmed ones alone if and only if no money is in the second group |
| `LedgerRuns.CrossTenantNets` | backend/app/application/fin/settlement_service.py:159-266 | In every run cross-tenant payables exceed receivables by the settlements confirmed without a receiver, so they net to zero if and only if those are worth nothing |
| `VoucherRuns.CrossTenantNetsIff` | backend/app/application/fin/settlement_service.py:159-266 | In every run cross-tenant payables and receivables net to zero if and only if no accepted plain confirmation was of a cross-tenant settlement with an amount and without a receiver; the cross-tenant path never makes one |
| `VoucherRuns.VouchersOfEveryRun` | backend/app/application/fin/settlement_service.py:222-266 | In every run a settlement has a receivable or payable of its amount, for the tenant its type demands, if and only if a confirmation of it was accepted |
| `VoucherRuns.StatusOfEveryRun` | backend/app/application/fin/settlement_service.py:159-220 | In every run a settlement is confirmed or cancelled if and only if such a call of it was accepted, and nothing else moves it from draft |
| `VoucherRuns.ConfirmAcceptedIff` | backend/app/application/fin/settlement_service.py:159-220 | When confirmations and cancellations are accepted, the cross-tenant path for that type with a receiver only |
| `VoucherRuns.CreateAcceptedIff` | backend/app/application/fin/settlement_service.py:48-107 | A settlement is created if and only if its number is new, its order allows it and it has lines, all of whose prices, amounts and taxes are exact |
| `SettlementRuns.CrossTenantBooksBoth` | backend/app/application/fin/settlement_service.py:174-206 | In every run each confirmed cross-tenant settlement with a receiver has a receivable for the receiver and a payable for the initiator, both of its amount, also when it is cancelled later |
| `LedgerRuns.CallbackAcceptedIff` | backend/app/application/fin/payment_service.py:146-180 | In every run a success callback is accepted if and only if the payment is executing and its payable still has the amount open; a repeated one is rejected |
| `CallbackRuns.AllAcceptedIff` | backend/app/application/fin/payment_service.py:146-180 | In every run, and in every order, the successes of executing payments of one payable are all booked if and only if their sum is at most what is open on it |
| `CallbackRuns.RefusedForever` | backend/app/application/fin/payment_service.py:146-180 | In every run a success that exceeds what is open on its payable is refused, and after any further calls too |
| `LedgerExamples.RefusedCallbackRun` | backend/app/application/fin/payment_service.py:146-180 | A run from an empty ledger: two payments on one open amount pass every check up to the bank, and the second success is refused |
| `LedgerExamples.CancelledPurchaseRun` | backend/app/application/fin/settlement_service.py:208-220 | A run from an empty ledger: a purchase confirmed and cancelled keeps its whole payable |
| `LedgerExamples.ReceiverlessRun` | backend/app/application/fin/settlement_service.py:159-172 | A run from an empty ledger: plainly confirmed without a receiver, a cross-tenant settlement books a payable and no receivable |
| `LedgerExamples.LostLineRun` | backend/app/application/fin/receipt_service.py:90-94 | A run from an empty ledger: the line comes before its voucher, the receipt is spent and the voucher stays open |
| `LedgerRuns.WriteOffBooksAllIff` | backend/app/application/fin/receipt_service.py:90-94 | A write-off adds all its lines to receivables if and only if each line's voucher exists or its amount is zero |
| `LedgerRuns.LineBeforeVoucherIsLost` | backend/app/application/fin/receipt_service.py:90-94 | A line may name a voucher that is booked later: the receipt is spent and the voucher is wholly open |
| `LedgerRuns.ApplyLinesEffect` | backend/app/application/fin/receipt_service.py:90-94 | The loop adds to each voucher the sum of the lines naming it, because each line reads its voucher again, and keeps its total and every other field |
| `LedgerRuns.UnconfirmedHasNoVoucher` | backend/app/application/fin/settlement_service.py:222-266 | A settlement that was never confirmed has no voucher, so booking never overwrites one |
| `LedgerRuns.BookedStep` | backend/app/application/fin/settlement_service.py:159-266 | Every call keeps voucher totals equal to the settlements that were ever confirmed, per settlement type |
| `LedgerRuns.PaidStep` | backend/app/application/fin/payment_service.py:40-180 | Every call keeps each payable's paid amount equal to its successful payments |
| `LedgerRuns.ReceivedStep` | backend/app/application/fin/receipt_service.py:43-96 | Every call keeps each receivable's received amount equal to the applied lines |
| `SettlementRuns.VoucherIsWorthItsLines` | backend/app/application/fin/settlement_service.py:48-107 | In every run each voucher amounts to quantity times price with tax, summed over the lines its settlement was created with |
| `SettlementRuns.SettlementWasCreated` | backend/app/application/fin/settlement_service.py:48-107 | In every run each settlement row still has the type, tenants, lines, amount and tax of its creation |
| `SettlementRuns.TotalIsWorth` | backend/app/domain/fin/aggregates/settlement_aggregate.py:27-79 | Where every line amount is whole hundredths, the total is the exact worth of the lines |
| `SettlementRuns.TotalIsTax` | backend/app/domain/fin/aggregates/settlement_aggregate.py:30-82 | Likewise the tax is the exact sum of quantity times price without tax times rate |
| `PaymentRuns.PaymentFollowsCalls` | backend/app/application/fin/payment_service.py:40-180 | In every run each payment was requested in CNY for its payable and amount, which was open on it then, approved with the roles the amount demands, executed, and called back, as far as its status says |
| `PaymentRuns.PaymentStep` | backend/app/application/fin/payment_service.py:90-180 | A call leaves an existing payment alone or moves it one step along that history, never changing payable and amount |
| `PaymentRuns.RequestAcceptedIff` | backend/app/application/fin/payment_service.py:40-88 | A payment is accepted if and only if its number is new, its payable exists and its amount is exact, in CNY and at most what is open |
| `PaymentRuns.MovesAcceptedIff` | backend/app/application/fin/payment_service.py:90-180 | Approval, rejection, execution and a failure report are accepted if and only if the payment is in the status before, an approval with the roles the amount demands |
| `VoucherStatuses.StatusOfEveryRun` | backend/app/domain/fin/aggregates/ap_voucher_aggregate.py:73-101 | In every run a voucher that is not of amount zero is settled, partly settled or open if and only if its amounts say so |
| `LedgerServices.SettlementService.Create` | backend/app/application/fin/settlement_service.py:48-107 | Line building in order, then total and tax; the row with its lines or the first error of the source order |
| `LedgerServices.SettlementService.ConfirmSettlement` | backend/app/application/fin/settlement_service.py:159-172 | Only a draft is confirmed, and its vouchers are booked with it |
| `LedgerServices.SettlementService.ConfirmCrossTenantSettlement` | backend/app/application/fin/settlement_service.py:174-206 | Refuses other types and missing receivers before confirming |
| `LedgerServices.SettlementService.CancelSettlement` | backend/app/application/fin/settlement_service.py:208-220 | Cancels drafts and confirmed settlements and leaves the vouchers |
| `LedgerServices.SettlementService.GenerateVouchers` | backend/app/application/fin/settlement_service.py:222-266 | One receivable, one payable, or both, for the tenants the type demands |
| `LedgerServices.PaymentService.RequestPayment` | backend/app/application/fin/payment_service.py:40-88 | A pending payment within what is open on its payable now, or an error |
| `LedgerServices.PaymentService.ApprovePayment` | backend/app/application/fin/payment_service.py:90-112 | Approval needs the roles the amount demands |
| `LedgerServices.PaymentService.RejectPayment` | backend/app/application/fin/payment_service.py:114-130 | A pending payment goes back to draft |
| `LedgerServices.PaymentService.ExecutePayment` | backend/app/application/fin/payment_service.py:132-144 | Only an approved payment starts executing |
| `LedgerServices.PaymentService.BankCallback` | backend/app/application/fin/payment_service.py:146-180 | Payment and payable change together or not at all; a failure report only fails the payment |
| `LedgerServices.ReceiptService.ConfirmReceipt` | backend/app/application/fin/receipt_service.py:43-57 | Only a pending receipt is confirmed |
| `LedgerServices.ReceiptService.ApplyAll` | backend/app/application/fin/receipt_service.py:90-94 | The voucher loop is the line-by-line specification |
| `LedgerServices.ReceiptService.WriteOffReceipt` | backend/app/application/fin/receipt_service.py:59-96 | Receipt and vouchers change together or not at all, with the source's order of errors |
| `NegativePolicy.LogReplaysToPolicy` | backend/app/application/governance/negative_policy_app_svc.py:64-111 | Over every run, whatever a tenant starts with: the log is only appended to, and the tenant's new records lead without gap and without no-op from its first policy to its current one |
| `NegativePolicy.LogStartsStrictAndEndsCurrent` | backend/app/application/governance/negative_policy_app_svc.py:64-111 | From an empty table the first record starts at strict and the last ends at the current policy |
| `NegativePolicy.ModesRoundTrip` | backend/app/application/governance/negative_policy_app_svc.py:29-42 | Writing a mode and reading it back is the identity |
| `NegativePolicy.ModesAreRead` | backend/app/application/governance/negative_policy_app_svc.py:36-42 | What each inventory mode means: two of them warning, every unknown one strict |
| `NegativePolicy.ModesAreStored` | backend/app/application/governance/negative_policy_app_svc.py:29-34 | What an accepted change stores for each mode |
| `NegativePolicy.CallChains` | backend/app/application/governance/negative_inventory_policy_audit_writer.py:82-101 | One call adds at most one record, from the policy before to the policy after, never equal |
| `NegativePolicy.ForeignCallsChangeNothing` | backend/app/application/governance/negative_inventory_policy_audit_writer.py:27-52 | A caller without context, from another tenant or without the permission changes neither policy nor log of a tenant |
| `NegativePolicy.EveryRecordHasItsCall` | backend/app/application/governance/negative_inventory_policy_audit_writer.py:55-101 | Over every run each new record stands for one of the calls, by its operator, permitted in that tenant, with a reason that is not blank |
| `NegativePolicy.ChangeAcceptedIff` | backend/app/application/governance/negative_policy_app_svc.py:64-96 | A change is accepted if and only if the caller is of the tenant and permitted, the mode is new and the reason is not blank |
| `NegativePolicy.NegativePolicyAppSvc.ChangePolicy` | backend/app/application/governance/negative_policy_app_svc.py:64-96 | The row is written before the audit checks; a refusal leaves row and log as before |
| `NegativePolicy.NegativePolicyAppSvc.GetCurrentPolicy` | backend/app/application/governance/negative_policy_app_svc.py:52-62 | Own tenant or platform administrator only; strict without a row or for an unknown mode |
| `NegativePolicy.NegativePolicyAppSvc.InitializeDefaultPolicy` | backend/app/application/governance/negative_policy_app_svc.py:98-111 | Adds a strict row where none is and never changes the policy that is read |
| `SealGates.FinalPassMeansAllGates` | backend/app/application/rel/seal_final_verdict_judge.py:34-65 | Over every run that never retries gates of the release, a final pass implies that each of the six gate types has a recorded pass |
| `SealGates.FinalPassMeansAllYes` | backend/app/application/rel/seal_final_verdict_judge.py:34-65 | Over every run without retries of the release, a final pass means that one accepted execution had a yes from all six checkers |
| `SealGates.RecordHasItsCall` | backend/app/application/rel/seal_gate_executor.py:41-54 | Over every run, retries included, each record stands for an accepted call of its release and says what that call's checker answered |
| `SealGates.AskedIsRecorded` | backend/app/application/rel/seal_gate_executor.py:41-78 | An accepted execution records the answer of every checker before the first no, and that no |
| `SealGates.RetriedIsRecorded` | backend/app/application/rel/seal_gate_executor.py:82-108 | An accepted retry records the answer of every named gate that has a checker |
| `SealGates.RecordsComeFromOneCall` | backend/app/application/rel/seal_gate_executor.py:34-80 | Over every run without retries of the release, all its records are answers of one accepted execution |
| `SealGates.ExecuteAcceptedIff` | backend/app/application/rel/seal_gate_executor.py:34-80 | An execution is accepted if and only if no checker it asks has a record of the release already or comes up twice |
| `SealGates.RetryAcceptedIff` | backend/app/application/rel/seal_gate_executor.py:82-114 | A retry is accepted if and only if no named gate with a checker has a record already or is named twice |
| `SealGates.FinalPassIsCompleteIffSix` | backend/app/application/rel/seal_final_verdict_judge.py:34-65 | Over every run, retries included, a final pass covers all gate types if and only if the release has six records |
| `SealGates.OneRetriedGateCanPass` | backend/app/application/rel/seal_gate_executor.py:82-114 | One retried gate alone brings a release to a final pass |
| `SealGates.VerdictOfTable` | backend/app/application/rel/seal_final_verdict_judge.py:34-65 | The verdict read off the table rows: pass, fail and each of the three errors with their exact condition |
| `SealGates.FailIsForever` | backend/app/application/rel/seal_gate_executor.py:34-80 | A recorded failure gives a final fail after every later run, because rows are unique and immutable |
| `SealGates.RecordsOfGatedRelease` | backend/app/application/rel/seal_gate_executor.py:34-80 | Over every run without retries of the release its records are passes in checker order with at most one failure, at the end, and short of all checkers there is one |
| `SealGates.ExecuteAgainConflicts` | backend/app/application/rel/seal_gate_executor.py:54 | A release that has been executed can never complete another execution |
| `SealGates.RunKeepsUnique` | backend/alembic/versions/068_rel_gate_and_rollback.py:29-40 | No run records a gate of a release twice |
| `SealGates.SealGateExecutor.Execute` | backend/app/application/rel/seal_gate_executor.py:34-80 | The loop with its break is the specification; results list exactly the rows it added; a conflict leaves the table as before |
| `SealGates.SealGateExecutor.RetryGates` | backend/app/application/rel/seal_gate_executor.py:82-114 | All named gates with a checker are recorded without stopping at a failure, and the results list exactly the rows added; a conflict leaves the table as before |
| `SealGates.SealGateExecutor.Make` | backend/app/application/rel/seal_gate_executor.py:21-32 | An executor exists only with exactly six checkers |
| `VersionDiff.Compare` | backend/app/application/governance/master_data_version_comparator.py:20-42 | The loop over both key sets, in any order, gives exactly the fields whose values differ, with both values |
| `VersionDiff.DiffPatches` | backend/app/application/governance/master_data_version_comparator.py:29-42 | Applying the diff to anything that agrees with the first snapshot gives the second, up to keys whose value is None |
| `VersionDiff.PatchIsExactIff` | backend/app/application/governance/master_data_version_comparator.py:35-40 | The result is the second snapshot to the key if and only if no key was dropped and no new key holds None |
| `VersionDiff.DiffIsLeastPatch` | backend/app/application/governance/master_data_version_comparator.py:35-40 | Every patch between the two snapshots lists at least the reported fields, with the same new values |
| `VersionDiff.SwapUndoes` | backend/app/application/governance/master_data_version_comparator.py:35-40 | Swapping the versions swaps before and after, and the swapped diff undoes the patch |
| `VersionDiff.EmptyIffSame` | backend/app/application/governance/master_data_version_comparator.py:38-39 | Nothing is reported if and only if the snapshots agree up to None |
| `VersionDiff.ComposeDiffs` | backend/app/application/governance/master_data_version_comparator.py:35-40 | The diffs of two neighbouring steps compose to the diff of their ends |
| `VersionDiff.ChainPatches` | backend/app/application/governance/master_data_version_comparator.py:20-42 | Along any chain of versions the steps take the first snapshot to the last and compose to their diff |
| `VersionDiff.FindVersion` | backend/app/application/governance/master_data_version_comparator.py:45-56 | The first version with the number; an error if and only if there is none |
| `VersionDiff.GetLatestVersion` | backend/app/application/governance/master_data_version_comparator.py:59-65 | The first of the versions with the greatest number |
| `VersionDiff.GetPreviousVersion` | backend/app/application/governance/master_data_version_comparator.py:68-83 | The first version with the number before, found if and only if the number is above one and its predecessor is listed |
| `VersionDiff.RollbackTo` | backend/app/application/governance/master_data_version_comparator.py:86-96 | The first version with the target number, found if and only if it is listed |
| `Aging.AgingBucket` | backend/app/application/fin/accounting_service.py:34-47 | The scan of the ranges; days below 0 and above 999999 fall to the last bucket |
| `Aging.BucketByDates` | backend/app/application/fin/accounting_service.py:182-189 | Which due dates fall into which bucket: not yet due into the oldest, no due date into the youngest |
| `Aging.GetAgingAnalysis` | backend/app/application/fin/accounting_service.py:167-199 | Of the tenant's vouchers, at most 10000: each bucket is the sum of the open amounts mapped to it and the totals are the sums of the buckets; up to the limit they are all that is open for the tenant |
| `Aging.BucketsPartition` | backend/app/application/fin/accounting_service.py:182-197 | The five buckets together are the total, for every list of vouchers and every day |
| `Aging.TotalIsCompleteIff` | backend/app/application/fin/accounting_service.py:173-178 | The total is all that is open if and only if every voucher past the first 10000 is settled |
| `Aging.NeverYoungerIff` | backend/app/application/fin/accounting_service.py:34-47 | A later day gives no younger bucket, except if and only if a voucher comes due in between and is then at most 180 days past, because before it counts as oldest |
| `Aging.ReportOnlyAges` | backend/app/application/fin/accounting_service.py:182-189 | With nothing coming due in between, the amount at least as old as any given bucket never falls |

## Left out

- Data races on the task map and the task fields in Go: each assignment and each status write is one atomic action.
- The migration stages are stubs that always succeed; the model lets each of them fail, as the code around them provides for. The same holds for the bodies of the provisioning steps, which only log.
- The task returned by a migration, seen by its caller later; completion times, durations and log lines.
- Other writers of a tenant's status, and the failed and completed fields that nothing reads.
- Numbers passed to the amount printer: only texts are modelled. Currency names that JavaScript objects inherit, and the conversion to a number.
- Down-scripts of schema migrations: nothing runs them.
- Two processes running schema migrations at once.
- Decimal arithmetic is exact; the 28-digit context of Python decimals and the NUMERIC(18,2) bound are not modelled.
- Invalid enumeration names, missing dictionary keys and values that are no numbers, which raise before anything is stored.
- Order read views: their refusals are one input of a settlement's creation, `orderError`.
- Tenant filters and row-level security in the books; the services modelled here look rows up by number.
- Settled and closed settlements, red vouchers, overdue marks and cancelled payments: no service call reaches them, or other services not modelled here do.
- Foreign keys and the uniqueness of bank references, which can only make a call raise and change nothing.
- The repositories' conflict targets are taken as the effective keys. Account rows are unique per tenant and number in the schema (`backend/alembic/versions/077_fin_treasury.py:31`) but upserted by number (`backend/app/infrastructure/fin/treasury_account_repository.py:34`).
- The schema also checks `available_balance = balance - frozen_amount` (`backend/alembic/versions/077_fin_treasury.py:32`), but the repository never writes that column, whose default is 0 (`backend/app/infrastructure/fin/treasury_account_repository.py:26-42`): by the text every account with a non-zero available balance would be refused on insert. The model follows the repository and computes what is available, as the aggregate does.
- The line columns that receipts are saved to are taken to exist.
- Cash flow forecast, collection tasks, general ledger, period close and the list projections: sums and filters without state of their own.
- `Treasury.TreasuryService.GetBalanceSummary`: the order in which the accounts are listed is an input; the account rows carry no creation time.
- `Aging.GetAgingAnalysis`: the voucher tables are inputs, newest first; due dates are not part of the ledger's vouchers.
- `LedgerServices.SettlementService.Create`: product ids, line numbers and counterparties are not kept, because nothing modelled reads them.
- Gate checkers: their answers are inputs, one per gate type and call; snapshot hash and freeze declaration are inputs of the verdict.
- Values in master data snapshots are compared with one equality; Python's identification of `True`, `1` and `1.0` is not modelled.
- The instance check of a template beside its cycle check; Python's recursion limit.
- Purchase, sales, inventory, warehouse, approval, authentication, encryption, backup, placement and user interface code.
