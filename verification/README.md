# BlackGold: a verified model of its deterministic core

BlackGold is a trading research and execution system whose guarantees rest on deterministic, database-backed state
machines and on replay arithmetic. This project models that core in Dafny and proves what it promises. Tables are
maps, sequences and class fields; `Dec` is an exact `real`; identifiers are naturals; instants and dates are integers;
the exchange calendar is an increasing sequence of sessions. Asynchronous gateway operations are two half-steps with
broker events between them.

Each component is a specification on values, one imperative method or class for each operation the program performs in
place, proved to compute that specification, and laws about the specification over all inputs, runs or interleavings.

| modules | what they model |
|---|---|
| `OrderTypes`, `Transitions`, `OrderStore`, `OrderInvariants`, `FillDelivery` | the event-sourced order store |
| `HardCaps`, `Gateway`, `GatewayRuns`, `OrderOutcomes` | the guarded gateway, under every interleaving of its half-operations with broker events |
| `EntityMap`, `EntityMapAnswers` | the bitemporal symbol table |
| `Ledger`, `LedgerContents`, `SealJob`, `Transactions` | the hash-chained event ledger with daily seals, the job that seals the backlog, and nested transactions by savepoints |
| `ShadowFills`, `ShadowFillLaws`, `ShadowFillUnits`, `ShadowBook`, `ShadowCalendar`, `ShadowFillJob`, `ShadowFillJobLaws`, `ShadowFillJobOutcomes`, `ShadowHalt`, `ShadowHaltLaws` | the shadow pipeline: counterfactual fills, the deferring fill job, its reconciler, and the halt inputs |
| `CorporateActions`, `ActionReconciliation`, `ActionReconciliationLaws`, `CuratedNaming`, `ActionRows`, `CsvRecords` | the corporate-action reconciler, the choice of one stored row per date, and the curated file's CSV reader |
| `VolTarget`, `VolTargetLaws`, `VolTargetTerms`, `TotalReturn`, `TotalReturnLaws`, `TotalReturnTerms` | the volatility-targeted index and the total-return series |
| `TokenBucket` | the per-host pacing of requests |
| `StableSort`, `Wrappers` | JavaScript's stable sort, and option and result values |

`dafny verify dfyconfig.toml` checks the whole project. Every lemma switches Dafny's automatic induction off: inductions
are written out.

What the proofs found in the code, kept as the code has it:

- A refused outermost COMMIT is caught by the same block that undoes a body, which takes the depth to -1: the SQLite
  transaction stays open and every later `transaction` call throws (`Transactions.RefusedCommitIsFinal`).
- The token bucket's level is capped at the rate, so a host with a rate below one token never grants
  (`TokenBucket.EverGrantedIff`, and `HalfATokenIsNeverGranted` for one).
- The comment on the seal job's grace window says that an event up to two days stale still lands safely; it does only up
  to one day and the time of day (`SealJob.AlwaysLandsIff`).
- A bare CR inside a quoted field is not counted as a line break, so later records report lines too low
  (`CsvRecords.LineNumbersAreTrueIff`, and `BareReturnMisreportsALine` for one).
- A last record without a line ending that is one empty field, even a quoted one, is lost
  (`CsvRecords.LastEndingMayBeOmittedIff`, and `LoneEmptyFieldIsLost` for one).
- A file cut short between the two quotes of an escaped one is read as complete (`CsvRecords.CutInQuotesIsRefusedIff`, and
  `HalfPairIsLost` for one).
- Restating a series for a split is not neutral when a payment without a bar on its ex-date lands past the split, nor for
  a split after the last bar when the ending pays something (`TotalReturnLaws.RestatementIsNeutralIff`; instances
  `CarriedDividendIsNotNeutral` and `LateSplitIsNotNeutral`). A series without a warning of a moved distribution is safe
  from the first (`TotalReturnLaws.UnwarnedCarriesNothing`).
- A re-arm can be consumed twice when a decision is sealed after the next one's instant
  (`ShadowHaltLaws.ConsumedOnceIff`, and `LateSealConsumesTwice` for one).

## Model

| member | source | states |
|---|---|---|
| OrderStore.Store.PersistIntent | packages/broker-gateway/src/state-machine/store.ts:140-188 | An intent is stored as CREATED with one log row, unless its client order id or intent id is already persisted; then it throws and every table is as it was |
| OrderStore.Store.TransitionTo | packages/broker-gateway/src/state-machine/store.ts:247-265 | An illegal move throws and writes nothing; a legal one writes the log row and the new state together: the new tables are those of the transition rule |
| OrderStore.Store.ApplyBrokerEvent | packages/broker-gateway/src/state-machine/store.ts:205-216 | An event id is applied once: the tables and the result are those of the event rule, and a repeated id changes nothing |
| OrderStore.Store.ApplyInTx | packages/broker-gateway/src/state-machine/store.ts:267-328 | Each event kind, on each state: the implied transition, a recorded request for reconciliation, or a no-op, with the patch it carries |
| OrderStore.Store.ApplyFillInTx | packages/broker-gateway/src/state-machine/store.ts:301-313 | A fill of an entry with requested protection goes on from FILLED to PROTECTION_PENDING in the same transaction |
| OrderStore.Store.PatchState | packages/broker-gateway/src/state-machine/store.ts:330-349 | Only the named order's row changes, absent fields keep their stored values |
| Transitions.EnteredFrom | packages/broker-gateway/src/state-machine/transitions.ts:12-30 | The transition table read by column: exactly the states each state may be entered from |
| Transitions.TerminalIff | packages/broker-gateway/src/state-machine/transitions.ts:12-41 | The terminal states are exactly those with no legal move out |
| Transitions.NoTrap | packages/broker-gateway/src/state-machine/transitions.ts:12-41 | From every state at most two legal moves end in a terminal state |
| OrderInvariants.EventEffectSound | packages/broker-gateway/src/state-machine/store.ts:267-328 | Every log row an event adds that changes state is in the transition table, leaves UNKNOWN only for a reconciliation, and a terminal row keeps state, quantity, price and coverage |
| OrderInvariants.StoreStepKeeps | packages/broker-gateway/src/state-machine/store.ts:140-365 | Every store operation, failed ones included, keeps the log chained and sound, and takes back no log row, intent or terminal outcome |
| OrderInvariants.StoreRunKeeps | packages/broker-gateway/src/state-machine/store.ts:140-365 | The same over every run of store operations |
| OrderInvariants.ChainByIndex | packages/broker-gateway/src/state-machine/store.ts:231-245 | An order's history read by index: it starts at CREATED, each row leaves the state the one before it entered, and the last row enters the stored state |
| OrderInvariants.LoggedChain | packages/broker-gateway/src/state-machine/store.ts:351-365 | Log rows appended for a path of hops extend the order's chain to the path's end |
| FillDelivery.DeliveriesSettle | packages/broker-gateway/src/state-machine/store.ts:297-313 | Any deliveries of fill events to an acknowledged order, in any order and with repeats, leave the state, quantity and average price of the largest |
| FillDelivery.DeliveryOrderIrrelevant | packages/broker-gateway/src/state-machine/store.ts:205-216 | Two delivery schedules of the same events leave the same state, filled quantity and average price |
| FillDelivery.EventsNeverLowerFilled | packages/broker-gateway/src/state-machine/store.ts:367-375 | No broker event lowers a stored filled quantity; only reconciliation may |
| HardCaps.Check | packages/broker-gateway/src/guards/hard-caps.ts:62-97 | The verdict lists every failing cap exactly once, and is empty exactly when the order is within all of them |
| HardCaps.AllCapsMet | packages/broker-gateway/src/guards/hard-caps.ts:62-97 | An order is within caps if and only if no refusal reason applies to it |
| HardCaps.SellNotionalCoversBid | packages/broker-gateway/src/guards/hard-caps.ts:107-119 | A LIMIT sell within caps is within the notional cap at the bid it would fill at, not only at its limit |
| HardCaps.BuyNotionalCoversAsk | packages/broker-gateway/src/guards/hard-caps.ts:107-119 | A MARKET buy within caps is within the notional cap at the ask, a LIMIT buy at its limit |
| HardCaps.NotionalCapIff | packages/broker-gateway/src/guards/hard-caps.ts:88-119 | The notional cap refuses an order if and only if some price it may fill at takes it over the cap |
| HardCaps.WholeSharesOnAFreshQuote | packages/broker-gateway/src/guards/hard-caps.ts:62-86 | An order within caps is not live, and for a whole number of shares above zero on a quote no later than now and within the age cap |
| HardCaps.FreshIff | packages/broker-gateway/src/guards/hard-caps.ts:83-85 | A quote passes if and only if it is no later than now and not older than the age cap |
| HardCaps.WholeNumbersAreWhole | packages/broker-gateway/src/guards/hard-caps.ts:77-77 | Every whole number of shares passes the fraction check |
| Gateway.OrderGateway.BeginSubmit | packages/broker-gateway/src/guards/gateway.ts:69-98 | Up to the await: persist, guard, log VALIDATED, APPROVED and SUBMITTING, and call the broker; the new state is that of the submit rule |
| Gateway.OrderGateway.EndSubmit | packages/broker-gateway/src/guards/gateway.ts:98-115 | After the await the tables are those of the submit rule, whose outcome for each answer `OrderOutcomes.AwaitedSubmit` gives; if an event made the move illegal meanwhile it throws and writes nothing |
| Gateway.OrderGateway.EndReconcile | packages/broker-gateway/src/guards/gateway.ts:118-147 | After the await: reject when the broker has no such order and the grace has passed, otherwise take the broker's state and totals, and request protection after a FILLED |
| Gateway.OrderGateway.BeginCancel | packages/broker-gateway/src/guards/gateway.ts:150-167 | Before submission a cancel is local; after it the order is CANCEL_PENDING |
| Gateway.OrderGateway.BeginReconcile | packages/broker-gateway/src/guards/gateway.ts:118-122 | Only an order stored as UNKNOWN asks the broker; an unknown id is refused |
| Gateway.OrderGateway.EndCancel | packages/broker-gateway/src/guards/gateway.ts:158-167 | A lost cancel response marks the order UNKNOWN, or throws and writes nothing when that move is illegal |
| Gateway.OrderGateway.OnBrokerEvent | packages/broker-gateway/src/guards/gateway.ts:173-175 | An event changes the tables as the store's event rule says |
| GatewayRuns.GatewayStepSafe | packages/broker-gateway/src/guards/gateway.ts:69-181 | Every half-operation and every event keeps the whole safety invariant, whatever was interleaved before it |
| GatewayRuns.GatewayRunSafe | packages/broker-gateway/src/guards/gateway.ts:69-181 | In every interleaving: each order's log is a chain ending in its stored state, state-changing rows are in the table, rows leaving UNKNOWN are reconciliations, PROTECTED has confirmed coverage of at least a positive fill, and no BUY with requested protection rests in FILLED |
| GatewayRuns.SubmittedAtMostOnce | packages/broker-gateway/src/guards/gateway.ts:69-98 | The broker's submit is called at most once per client order id and per intent id, only after CREATED, VALIDATED, APPROVED and SUBMITTING are logged, and only for intents on the sleeve account, in a non-live mode, with the deterministic id and within every hard cap |
| GatewayRuns.OnlySubmitCalls | packages/broker-gateway/src/guards/gateway.ts:118-175 | Reconcile, cancel and event handling never call the broker's submit; a submit half that does had a new intent that passes every guard |
| GatewayRuns.SubmitTrail | packages/broker-gateway/src/guards/gateway.ts:69-98 | At the call the order's history is exactly the four rows CREATED, VALIDATED, APPROVED, SUBMITTING |
| GatewayRuns.ReconcileFilledSafe | packages/broker-gateway/src/guards/gateway.ts:139-147 | A reconcile to FILLED leaves a protected entry in PROTECTION_PENDING, never in FILLED |
| GatewayRuns.TerminalForever | packages/broker-gateway/src/state-machine/transitions.ts:12-41 | However a run goes on, an order in a terminal state keeps its state, filled quantity, average price and coverage |
| OrderOutcomes.AckOutcome | packages/broker-gateway/src/state-machine/store.ts:289-294 | An ack moves a SUBMITTING or UNKNOWN order to ACKNOWLEDGED under the broker's id and leaves every other state as it is |
| OrderOutcomes.RejectOutcome | packages/broker-gateway/src/state-machine/store.ts:295-296 | A reject event ends in REJECTED every order that may still be refused and changes nothing of any other |
| OrderOutcomes.CancelAckOutcome | packages/broker-gateway/src/state-machine/store.ts:314-315 | A cancel acknowledgement ends in CANCELED an order whose cancel was asked for, whose fate is unknown, or that may be canceled locally; it changes nothing of any other |
| OrderOutcomes.TimeoutOutcome | packages/broker-gateway/src/state-machine/store.ts:324-326 | A timeout makes UNKNOWN every order the broker may be working on, and no other |
| OrderOutcomes.FillOutcome | packages/broker-gateway/src/state-machine/store.ts:297-313 | A fill above what is held is taken with its quantity and price; a full one of a protected entry awaits coverage |
| OrderOutcomes.FillIgnored | packages/broker-gateway/src/state-machine/store.ts:297-302 | A fill that does not exceed what is held, or that comes where no fill can happen, changes no state and no amount |
| OrderOutcomes.EventReachesItsOrder | packages/broker-gateway/src/state-machine/store.ts:205-216 | A new event changes its own order as its effect says, and no other |
| OrderOutcomes.CoverageOutcome | packages/broker-gateway/src/state-machine/store.ts:316-321 | Confirmed coverage is recorded, and protects the order if and only if it reaches a positive filled quantity |
| OrderOutcomes.EventResult | packages/broker-gateway/src/state-machine/store.ts:273-328 | An event reports the state it leaves, and as applied if and only if it moved the order or added to a partial fill |
| OrderOutcomes.ShortCoverageIff | packages/broker-gateway/src/state-machine/store.ts:316-321 | It reports under-protection if and only if confirmed coverage of an order awaiting it falls short of a positive fill |
| OrderOutcomes.IgnoredEvent | packages/broker-gateway/src/state-machine/store.ts:205-216 | An event seen before, or of no stored order, changes no order and no log row |
| OrderOutcomes.AwaitedSubmit | packages/broker-gateway/src/guards/gateway.ts:97-114 | A stored SUBMITTING order ends ACKNOWLEDGED with the broker's id, REJECTED, UNKNOWN or UNKNOWN for an acknowledgement, a refusal, an adapter error and a lost response |
| OrderOutcomes.LateSubmitOutcome | packages/broker-gateway/src/guards/gateway.ts:97-114 | On an order an event acknowledged meanwhile only an ambiguous answer has effect: it makes it UNKNOWN |
| OrderOutcomes.AllowedIsSubmitted | packages/broker-gateway/src/guards/gateway.ts:69-95 | A new intent that every guard allows is SUBMITTING, and the broker has been called with it |
| OrderOutcomes.RefusedIsRejected | packages/broker-gateway/src/guards/gateway.ts:74-91 | Any other new intent is stored as REJECTED and the broker is not called |
| OrderOutcomes.NewOrderIsEmpty | packages/broker-gateway/src/guards/gateway.ts:69-95 | Either way the new order has nothing filled, nothing covered, and no broker id or price |
| OrderOutcomes.DuplicateIsRefused | packages/broker-gateway/src/guards/gateway.ts:69-72 | An intent either of whose ids is stored changes nothing and calls no broker |
| OrderOutcomes.ReconcileNotFound | packages/broker-gateway/src/guards/gateway.ts:132-138 | An order the broker does not have is left within the grace and REJECTED from its end on |
| OrderOutcomes.ReconcileFound | packages/broker-gateway/src/guards/gateway.ts:139-147 | An order the broker has takes the broker's state and totals, a filled protected entry awaits coverage, and an unclassified state changes nothing |
| OrderOutcomes.CancelStart | packages/broker-gateway/src/guards/gateway.ts:150-156 | A cancel before submission ends in CANCELED, of a working order is CANCEL_PENDING, and of any other changes nothing |
| OrderOutcomes.CancelOutcome | packages/broker-gateway/src/guards/gateway.ts:157-166 | A lost cancel response leaves UNKNOWN, any other answer CANCEL_PENDING |
| OrderOutcomes.StepEndsByWord | packages/broker-gateway/src/guards/gateway.ts:97-181 | One step of any kind ends a sent order only by the broker's word on it: REJECTED by a refusal or a reconciliation, CANCELED by a cancellation; none returns it to before submission |
| OrderOutcomes.OnlyTheBrokersWordEnds | packages/broker-gateway/src/guards/gateway.ts:97-181 | Over every run, a sent order in REJECTED was refused by the broker or found missing by a reconciliation, and one in CANCELED was canceled by it: an ambiguous outcome is never terminal |
| EntityMap.SymbolTable.RegisterRange | packages/core/src/market/entity-map.ts:104-138 | The scan's outcome is that of the order-free rule: an identical range is returned and nothing changes, an open earlier rival is closed the day before, any other rival refuses and rolls back |
| EntityMap.SymbolTable.CloseRangesOf | packages/core/src/market/entity-map.ts:146-158 | All the entity's open ranges are closed and counted, or one starts too late and nothing changes |
| EntityMap.SymbolTable.ApplyIdentityAction | packages/core/src/market/entity-map.ts:211-242 | Symbol changes, mergers, delistings and spin-offs change the table as the action rule says, or fail and leave it |
| EntityMap.SymbolTable.ResolveSymbol | packages/core/src/market/entity-map.ts:164-171 | The one entity the symbol denoted on the date as knowable at an instant, or nothing when none or several did |
| EntityMap.SymbolTable.SymbolOfEntityOn | packages/core/src/market/entity-map.ts:182-188 | The symbol of the latest-starting range the entity traded under, as knowable at an instant |
| EntityMap.RegisteredHasNoRival | packages/core/src/market/entity-map.ts:104-116 | While no ranges of different entities overlap, an identical stored range has no rival: returning early from inside the scan is safe |
| EntityMap.RunKeepsNoOverlaps | packages/core/src/market/entity-map.ts:104-242 | Over every run of transactions, ranges of different entities for one symbol never overlap |
| EntityMap.CurrentResolutionUnambiguous | packages/core/src/market/entity-map.ts:164-171 | With all current knowledge a symbol denotes at most one entity on any date, after any run |
| EntityMap.RegisteringAgainChangesNothing | packages/core/src/market/entity-map.ts:104-138 | Registering a range the table holds changes nothing, after any run |
| EntityMap.LaterKnowledgeIsInvisible | packages/core/src/market/entity-map.ts:87-192 | Whatever transactions later knowledge brings, resolve, symbolsFor and symbolOn as known at an earlier instant answer as they did |
| EntityMap.AmbiguityNeedsALateClose | packages/core/src/market/entity-map.ts:164-171 | A bounded lookup is ambiguous only when one candidate was in fact closed before the date by a close not yet knowable |
| EntityMapAnswers.RegisterAnswers | packages/core/src/market/entity-map.ts:104-138 | After a registration the range holds, another entity's earlier open range holds until the day before, and every other answer is as it was |
| EntityMapAnswers.RegisterFailsIff | packages/core/src/market/entity-map.ts:104-120 | A registration is refused if and only if its dates are reversed, or, unless the very range is held, another entity's range for the symbol shares a date with it and is not an open one that started earlier |
| EntityMapAnswers.EndingAnswers | packages/core/src/market/entity-map.ts:146-158 | Around a merger or delisting: through the last date of use every symbol resolves as it did; after it a symbol resolves to the entity only by a range already closed on or after the date |
| EntityMapAnswers.CloseFailsIff | packages/core/src/market/entity-map.ts:149-152 | A close is refused if and only if an open range of the entity would end before its first date |
| EntityMapAnswers.OpenCountIs | packages/core/src/market/entity-map.ts:148-156 | The number a close returns is how many open ranges the entity has |
| EntityMapAnswers.KnownFromTheDay | packages/core/src/market/entity-map.ts:107-211 | What is given no instant is known from the start of the day it concerns |
| EntityMapAnswers.NewSymbolAnswers | packages/core/src/market/entity-map.ts:213-225 | From the effective date of a symbol change the new symbol resolves to the entity |
| EntityMapAnswers.OldSymbolAnswers | packages/core/src/market/entity-map.ts:199-223 | Before it the old symbol resolves as it did, or where no link was known from the floor on; from it on only by a range that a change does not close |
| EntityMapAnswers.SpinoffAnswers | packages/core/src/market/entity-map.ts:233-235 | From the ex-date the child's symbol, or its id where none is given, resolves to the child |
| EntityMapAnswers.BoundedLookup | packages/core/src/market/entity-map.ts:164-171 | A lookup bounded by an instant answers from the table as that instant knows it, and only when exactly one entity holds the symbol in it |
| EntityMapAnswers.ResolvedIff | packages/core/src/market/entity-map.ts:164-171 | An instant that knows every range and close resolves a symbol to an entity if and only if a range of that entity holds on the date |
| EntityMapAnswers.CurrentKnowsAll | packages/core/src/market/entity-map.ts:77-78 | A lookup without a bound knows every range and close |
| EntityMapAnswers.SymbolOnIs | packages/core/src/market/entity-map.ts:182-188 | The symbol an entity traded under is that of the latest-starting range it held, as known; there is none if and only if it held none |
| Ledger.EventLedger.AppendEvent | packages/core/src/ledger/ledger.ts:93-114 | One event is added, numbered one past the last and linked to its hash, unless its UTC date is sealed; then nothing changes |
| Ledger.EventLedger.SealDay | packages/core/src/ledger/ledger.ts:215-228 | A day's root is stored once; sealing again returns it, or fails when the day no longer computes it |
| Ledger.EventLedger.ComputeDailyRoot | packages/core/src/ledger/ledger.ts:203-209 | The root, first and last number of exactly the events of that UTC date, wherever in the table they stand |
| Ledger.EventLedger.MaxSealedSeq | packages/core/src/ledger/ledger.ts:163-166 | The highest event number any seal covers, or nothing |
| Ledger.EventLedger.VerifyChainSinceLastSeal | packages/core/src/ledger/ledger.ts:146-160 | The verdict on the events after the last sealed one, anchored on its stored hash, with the boundary contiguity test |
| Ledger.EventLedger.VerifySeals | packages/core/src/ledger/ledger.ts:246-252 | Exactly the sealed days whose stored root is not what their events compute |
| Ledger.VerifyEventChain | packages/shared/src/events.ts:22-36 | The loop's verdict: the first event that is misnumbered, unlinked or mishashed, or a pass |
| Ledger.FullCheckIsPrefixAndTail | packages/core/src/ledger/ledger.ts:146-160 | On any stored table whose anchor event is present, the full check passes if and only if the sealed prefix and the tail check do |
| Ledger.HeadHashPinsTheLedger | packages/shared/src/events.ts:16-20 | Two intact tables with the same last hash are the same table |
| Ledger.EveryCheckPasses | packages/core/src/ledger/ledger.ts:93-252 | After any run of appends with any instants and seals of any dates, the full check, the tail check and every seal pass |
| Ledger.SealingNeverMismatches | packages/core/src/ledger/ledger.ts:215-228 | In any run sealing never fails, and sealing a sealed day changes nothing |
| Ledger.SealedDayIsFrozen | packages/core/src/ledger/ledger.ts:93-114 | Whatever is appended later, a sealed day keeps exactly the events it was sealed with |
| Ledger.SealPinsTheDay | packages/core/src/ledger/ledger.ts:203-209 | Two tables that pass the chain check seal a date alike if and only if they hold the same events on it |
| Ledger.PassingChecksPinSealedDays | packages/core/src/ledger/ledger.ts:246-252 | A table rewritten behind the seals of any run that still passes the chain check and a day's seal has that day's events as they were |
| LedgerContents.LastRowIsGiven | packages/core/src/ledger/ledger.ts:96-113 | An accepted append adds one row with the given kind, payload and instant, numbered one on from the last and linked to its hash |
| LedgerContents.RunRecordsAppends | packages/core/src/ledger/ledger.ts:93-228 | After every run the table holds exactly the accepted appends, in order and as given, and the seals are of exactly the dates sealed |
| LedgerContents.SealRange | packages/core/src/ledger/ledger.ts:203-213 | A seal's range runs from the least to the greatest number of the day's events, and is absent on a day without any |
| SealJob.RunSealJob | packages/core/src/serve.ts:54-77 | The job seals exactly the unsealed dates with events up to the grace window, each as the day computes it, and reports them in one event if there were any; it fails only when that report's own day is sealed, and then keeps the seals |
| SealJob.NoBacklogIsLeft | packages/core/src/ledger/ledger.ts:186-200 | After a run of the job no date with events up to the grace window is unsealed |
| SealJob.RunIsSound | packages/core/src/ledger/ledger.ts:93-252 | In any run of appends with any stamps and of the job, the chain and every seal stay valid |
| SealJob.SealedStaysBehind | packages/core/src/ledger/ledger.ts:72-74 | While every job ran by an instant, no date past that instant's grace window is sealed |
| SealJob.AlwaysLandsIff | packages/core/src/ledger/ledger.ts:57-74 | An event is accepted after every such run if and only if its stamp is no staler than one day and the time of day |
| SealJob.TwoDaysStaleIsRefused | packages/core/src/ledger/ledger.ts:66-68 | A concrete stamp less than two days stale that a run refuses |
| Transactions.Connection.RunProgram | packages/shared/src/db.ts:31-53 | The depth-named commands around a callback take the machine where the command semantics says, and throw exactly when it does |
| Transactions.NestedRefines | packages/shared/src/db.ts:31-53 | Inside a transaction a tree of writes, transactions, throws and catches changes the visible contents as all-or-nothing nesting means, and leaves the disk, the savepoint stack and the depth as they were |
| Transactions.IdleRefines | packages/shared/src/db.ts:31-53 | From an idle connection, a program whose commits go through leaves on disk exactly what it means |
| Transactions.NothingCommitsEarly | packages/shared/src/db.ts:31-53 | While an outermost transaction's body runs, nothing reaches the disk |
| Transactions.TransactionEndsIdleIff | packages/shared/src/db.ts:31-53 | An outermost transaction leaves the connection idle if and only if its body threw or its COMMIT was accepted |
| Transactions.EndsIdleIff | packages/shared/src/db.ts:31-53 | A whole program run from an idle connection leaves it usable if and only if every outermost COMMIT it reaches goes through; otherwise the counter stays at -1 |
| Transactions.AcceptedCommitsGoThrough | packages/shared/src/db.ts:31-53 | On a database that never refuses a COMMIT every program's commits go through |
| Transactions.RefusedCommitIsFinal | packages/shared/src/db.ts:31-53 | After a refused COMMIT the depth is -1: nothing is durable again and every later transaction throws without running |
| Transactions.RefusedCommitHappens | packages/shared/src/db.ts:31-53 | A concrete program and commit rule for the refused case |
| ShadowFills.CounterfactualFills | packages/core/src/decision/shadow-fills.ts:197-380 | The record, for a positive book value, is the sorted timeline applied step by step: fills, cash, holdings, shortfall, remainders and suppressed orders; nothing is done for a book value that is not positive. `ShadowFillUnits` says what each step is and does |
| ShadowFills.ClampToCash | packages/core/src/decision/shadow-fills.ts:319-331 | The step-down loop buys the quantity the clamp rule names, with fees pro-rated, or nothing |
| ShadowFills.AffordableIsMost | packages/core/src/decision/shadow-fills.ts:319-331 | A clamped buy is the most whole shares whose pro-rated cost the cash covers, and fewer than ordered |
| ShadowFills.GateOrders | packages/core/src/decision/shadow-fills.ts:233-253 | HOLD_ONLY stops every order, blocked new risk stops increases only, and everything stopped is listed as a suppressed entry or exit |
| ShadowFills.AfterStepNonNegative | packages/core/src/decision/shadow-fills.ts:301-352 | No step takes cash or a holding below zero |
| ShadowFillLaws.BookNeverNegative | packages/core/src/decision/shadow-fills.ts:255-365 | From a non-negative book, cash and every holding stay non-negative after any number of the record's steps |
| ShadowFillLaws.ReplayReproducesTheBook | packages/core/src/decision/shadow-fills.ts:301-352 | Replaying only the persisted fills with later splits, a split before a same-day fill, gives the record's final cash and holdings |
| ShadowBook.EntitledQuantity | packages/core/src/decision/shadow-book.ts:85-105 | The loop applies the entity's fills and splits, sorted by date with a split before a same-day fill, and stops at the first on or after the ex-date |
| ShadowBook.EntitledIsHeldThen | packages/core/src/decision/shadow-book.ts:79-105 | For every date, that replay from the record's opening position gives the holding the record's timeline has going into the date |
| ShadowBook.CashThenIsReplayed | packages/core/src/decision/shadow-book.ts:107-129 | For every date, the opening cash and the effects of the persisted fills before it are the record's cash going into it |
| ShadowFillLaws.FreezeListsEveryRemovedLine | packages/core/src/decision/shadow-fills.ts:215-253 | Under HOLD_ONLY every held line absent from the target is listed as a frozen exit, priced or not, and with a book value that is not positive too |
| ShadowFillLaws.GateBindsTheFills | packages/core/src/decision/shadow-fills.ts:233-253 | Every persisted fill is of an order the gate let through: none under HOLD_ONLY, no buy under blocked new risk |
| ShadowFillLaws.ListingOrderIsIrrelevant | packages/core/src/decision/shadow-fills.ts:255-299 | The same orders listed otherwise give the same timeline, hence the same fills, cash, holdings and shortfall |
| ShadowFillLaws.OrderIsAccountedFor | packages/core/src/decision/shadow-fills.ts:354-365 | Each order's persisted fills, in the units it was sized in, and its listed remainder add up to its size |
| ShadowFillUnits.FillIsInItsUnits | packages/core/src/decision/shadow-fills.ts:262-299 | Every fill step is a simulated fill of an order the gate let through, its quantity times and its price divided by the product of the ratios of that entity's split steps standing before it in the timeline |
| ShadowFillUnits.EveryFillIsWorked | packages/core/src/decision/shadow-fills.ts:265-292 | Every simulated fill of an order the gate lets through has such a step |
| ShadowFillUnits.LaterSplitsAreApplied | packages/core/src/decision/shadow-fills.ts:263-294 | A split dated after the decision session stands in the timeline as often as it is given, and no other split does |
| ShadowFillUnits.TimelineInOrder | packages/core/src/decision/shadow-fills.ts:296-299 | The timeline is by date, a split before the same day's fills, sells before buys, and then by entity |
| ShadowFillUnits.FillStepApplied | packages/core/src/decision/shadow-fills.ts:312-352 | One fill step buys the whole fill or the most whole shares the cash covers, or sells what is held at most, records exactly that fill with its fees in proportion, and moves the cash by it |
| ShadowFillUnits.SoldOutLeavesTheBook | packages/core/src/decision/shadow-fills.ts:333-344 | From a book without empty lines no step leaves one: a line sold out is removed |
| ShadowFillUnits.OrderAddsUp | packages/core/src/decision/shadow-fills.ts:348-365 | Each order's persisted fills, brought back to decision units by the split steps dated by them, and what the record lists as left of it add up to its size; something is listed if and only if less was filled |
| ShadowFillUnits.CashReasonIff | packages/core/src/decision/shadow-fills.ts:354-365 | A remainder is put down to cash if and only if the simulation filled the whole order and at some step a buy of it cost more than the cash then held |
| ShadowFillUnits.SuppressedAre | packages/core/src/decision/shadow-fills.ts:233-253 | The suppressed entries are the increases the gate stops, the suppressed exits the decreases it freezes and the removed lines that have no price |
| ShadowFillUnits.ShortfallIsCashOverDecisionCost | packages/core/src/decision/shadow-fills.ts:345-349 | The execution shortfall is the cash the fills took less what their decision units cost at the decision closes |
| StableSort.SortUnder | packages/core/src/decision/shadow-fills.ts:290-299 | The stable sort keeps what stands under each key, in order |
| ShadowCalendar.DueMonotone | packages/core/src/decision/shadow-reconcile.ts:29-42 | A later decision session is never due earlier |
| ShadowCalendar.OwedMonotone | packages/core/src/decision/shadow-reconcile.ts:44-58 | A later decision is never owed earlier, and nothing is owed before it is due |
| ShadowCalendar.WindowEndsBetween | packages/core/src/decision/shadow-reconcile.ts:44-58 | The fill window ends between the due and the owed session |
| ShadowFillJobOutcomes.DueIsKth | packages/core/src/decision/shadow-reconcile.ts:29-37 | A decision is due at the session the given number of sessions after its own, within the calendar-day horizon, and otherwise unplaced |
| ShadowFillJobOutcomes.SessionIs | packages/core/src/decision/shadow-fill-job.ts:101-103 | A decision's session is the last one closed by its instant less the charter's offset |
| ShadowFillJob.EverySessionObservedIff | packages/core/src/decision/shadow-reconcile.ts:38-46 | For an entity with a bar on every session the window is observed if and only if its bars reach the window's end session |
| ShadowFillJob.ObservedStaysObserved | packages/core/src/decision/shadow-fills.ts:153-174 | Bars that arrive later never reopen an observed fill window |
| ShadowFillJobOutcomes.ObservedIff | packages/core/src/decision/shadow-fills.ts:145-174 | A window is observed if and only if the entity has an anchor bar and, after it, as many bars as the delay, at least one, and the fill bars that follow |
| ShadowFillJob.Reconcile | packages/core/src/decision/shadow-reconcile.ts:81-134 | The reported breaks are exactly those whose condition holds of the ledgers; it fails only when an unrecorded decision's owed session cannot be placed |
| ShadowFillJobOutcomes.MissingDecisionIff | packages/core/src/decision/shadow-reconcile.ts:84-105 | From the first session with any sealed decision through the run's, a weekly session is reported for an arm if and only if that arm has none sealed on it |
| ShadowFillJobOutcomes.StopsIff | packages/core/src/decision/shadow-reconcile.ts:107-116 | The reconciler stops if and only if a sealed decision has no record and its owed session cannot be placed |
| ShadowFillJobOutcomes.NoRemainderIff | packages/core/src/decision/shadow-reconcile.ts:118-126 | No remainder is reported if and only if every one listed is for want of cash |
| ShadowFillJobOutcomes.CashIsReportedIff | packages/core/src/decision/shadow-reconcile.ts:128-132 | Negative cash is reported for an arm and session if and only if its replayed book lists a point of that session below zero |
| ShadowFillJob.ShadowLedgers.RunFillJob | packages/core/src/decision/shadow-fill-job.ts:102-213 | A completed run appends exactly what processing the pending decisions in order appends, which `ShadowFillJobOutcomes` gives by windows and owed sessions, and returns that state's breaks; a run that throws appends nothing |
| ShadowFillJobLaws.NoFillRecordIsMissing | packages/core/src/decision/shadow-fill-job.ts:109-209 | After every completed run its own reconcile reports no missing fill record |
| ShadowFillJobOutcomes.RecordedOrOwedLater | packages/core/src/decision/shadow-fill-job.ts:109-209 | After every completed run a sealed decision is recorded, or its owed session is placed and still to come |
| ShadowFillJobLaws.RunKeepsPrefix | packages/core/src/decision/shadow-fill-job.ts:135-179 | A completed run keeps each arm's recorded outcomes a prefix of its sealed decisions |
| ShadowFillJobLaws.OutcomesStayAPrefix | packages/core/src/decision/shadow-fill-job.ts:135-179 | While decisions are sealed in order, that prefix property holds through every sequence of seals and runs |
| ShadowFillJobOutcomes.RecordedIsFinal | packages/core/src/decision/shadow-fill-job.ts:140-179 | Every outcome a completed run newly records is of a pending decision, after the arm's earlier outcomes, and final: each remainder that is not for want of cash has its window observed, or the decision is owed |
| ShadowFillJobOutcomes.OfArmAre | packages/core/src/decision/shadow-fill-job.ts:146-146 | The outcomes a decision is computed after are its own arm's, each as often as recorded |
| ShadowFillJobOutcomes.LeftOnlyWhenOpen | packages/core/src/decision/shadow-fill-job.ts:163-174 | A pending decision with no earlier one of its arm left unrecorded is recorded by the run unless its outcome has an unobserved remainder and it is not owed yet |
| ShadowFillJobOutcomes.FinalIsRecorded | packages/core/src/decision/shadow-fill-job.ts:163-179 | A pending decision that is owed, or whose remainders are all observed, is recorded by the run when no earlier one of its arm is left |
| ShadowFillJobOutcomes.OnlyPendingIsRecorded | packages/core/src/decision/shadow-fill-job.ts:109-113 | A run records no decision before it is due or twice, and drops or changes no earlier record |
| ShadowFillJobOutcomes.RecordedInOrder | packages/core/src/decision/shadow-fill-job.ts:140-141 | A run records by decision instant, and at one instant by arm |
| ShadowHalt.ShadowHaltContext | packages/core/src/decision/shadow-halt.ts:61-104 | The context is the declared function of what is known at the instant |
| ShadowHalt.FindRunStart | packages/core/src/decision/shadow-halt.ts:81-85 | The backward scan finds the first reconcile of the unbroken run, ending at the latest, that reports the break |
| ShadowHalt.ClassifyBreaks | packages/core/src/decision/shadow-halt.ts:75-97 | Each reported break goes to exactly the list of its standing |
| ShadowHalt.Worst | packages/core/src/decision/shadow-halt.ts:99-99 | The starting state is at least as restrictive as every recorded one, with the owner-only state read as HOLD_ONLY, and is NORMAL or one of them |
| ShadowHaltLaws.StartsFromTheWorst | packages/core/src/decision/shadow-halt.ts:99-99 | A decision starts from HOLD_ONLY if any arm was held or flattened by the owner, otherwise from HALT_NEW_RISK if any was halted, otherwise from NORMAL |
| ShadowHaltLaws.BreaksPartition | packages/core/src/decision/shadow-halt.ts:75-97 | Unresolved, fresh and acknowledged partition the breaks of the latest known reconcile |
| ShadowHaltLaws.OldAcknowledgementsDoNotSilence | packages/core/src/decision/shadow-halt.ts:86-95 | A break whose acknowledgements all precede a reconcile that did not report it is unresolved or fresh: a recurrence, or a code named in advance, is never silenced |
| ShadowHaltLaws.StandingHoldsWhileReported | packages/core/src/decision/shadow-halt.ts:81-95 | A further reconcile that still reports a break keeps its first report, hence its standing |
| ShadowHaltLaws.StandingIs | packages/core/src/decision/shadow-halt.ts:79-97 | A break the latest reconcile reports is acknowledged if and only if an owner acknowledged it, by the decision, since the first report of its unbroken run; otherwise it is unresolved if that report was of an earlier session and fresh if not |
| ShadowHaltLaws.OnlyReportedIsListed | packages/core/src/decision/shadow-halt.ts:78-80 | A break the latest known reconcile does not report is on no list |
| ShadowHaltLaws.KnownAre | packages/core/src/decision/shadow-halt.ts:71-73 | The reconciles considered are exactly those by the decision instant |
| ShadowHaltLaws.LaterEventsChangeNothing | packages/core/src/decision/shadow-halt.ts:64-73 | Reconciles and re-arms after the decision instant, wherever listed, never change the context |
| ShadowHaltLaws.ListingOrderIsIrrelevant | packages/core/src/decision/shadow-halt.ts:72-73 | The order in which reconciles at different instants are listed is forgotten |
| ShadowHaltLaws.ContextHoldsWhatItConsumes | packages/core/src/decision/shadow-halt.ts:100-101 | The context's re-arms are, each as often as recorded, those after the previous decision instant and by this one |
| ShadowHaltLaws.EveryReArmIsConsumed | packages/core/src/decision/shadow-halt.ts:114-135 | No re-arm up to the latest decision is lost: the first decision at or after it consumes it |
| ShadowHaltLaws.ConsumedOnceIff | packages/core/src/decision/shadow-halt.ts:114-135 | Every re-arm is consumed by at most one decision if and only if each decision is sealed by the next one's instant |
| ShadowHaltLaws.LateSealConsumesTwice | packages/core/src/decision/shadow-halt.ts:114-135 | Two decisions, the first sealed after the second's instant, and a re-arm both consume |
| CorporateActions.StructuralInScope | packages/core/src/data/corporate-actions-reconcile.ts:210-291 | The loop admits, skips or refuses the curated actions as the entry-by-entry rule says, with the first refusal |
| CorporateActions.CuratedIsSound | packages/core/src/data/corporate-actions-reconcile.ts:210-291 | Admitted actions have distinct keys, are in scope and in the windows, name only records of their own entity on their date or past the end they set, keep none past it, every in-scope terminal action is its entity's one end, and no spin-off is past one |
| CorporateActions.NothingKeptPastAnEnd | packages/core/src/data/corporate-actions-reconcile.ts:272-279 | No admitted action keeps a record past its entity's series end, whichever action sets it |
| CuratedNaming.CuratesIff | packages/core/src/data/corporate-actions-reconcile.ts:210-291 | The curated entries are admitted if and only if each is a valued structural action, misspells no entity and names records within its reach, no two end one entity or repeat one action, and no written spin-off is dated past its parent's end |
| ActionReconciliation.Classify | packages/core/src/data/corporate-actions-reconcile.ts:348-374 | Each considered record goes into scope, under the finding of the action that names it, or is unnamed; which, `CuratedNaming` proves from the curated entries |
| ActionReconciliation.FateHasAFinding | packages/core/src/data/corporate-actions-reconcile.ts:349-354 | A record set aside or kept always has a finding to be listed under: the internal error never happens |
| ActionReconciliation.ReconcileCorporateActions | packages/core/src/data/corporate-actions-reconcile.ts:302-492 | The whole reconciliation's file, findings, disputes or first refusal is that of the declared pipeline |
| CuratedNaming.SucceedsIff | packages/core/src/data/corporate-actions-reconcile.ts:302-418 | A reconciliation succeeds if and only if two sources report and a preferred one does, the windows do not end before they start, the curated entries are admitted, the records pass classification, and no action's first-ranked unsuperseded record is malformed |
| ActionReconciliationLaws.NothingIsDropped | packages/core/src/data/corporate-actions-reconcile.ts:15-20 | A considered record is set aside, or the file has exactly one entry for its entity, kind and date, which names its source unless the report lists its value |
| ActionReconciliationLaws.SetAsideIff | packages/core/src/data/corporate-actions-reconcile.ts:355-374 | A considered record is under a finding as superseded if and only if it is not in scope |
| ActionReconciliationLaws.SetAsideOnTheOwnersWord | packages/core/src/data/corporate-actions-reconcile.ts:28-29 | Every record set aside is named as superseded by an admitted curated action |
| CuratedNaming.SupersededIsSetAside | packages/core/src/data/corporate-actions-reconcile.ts:355-374 | The report sets aside under a day exactly the considered records that an action written on that day names under supersedes |
| CuratedNaming.FindingDays | packages/core/src/data/corporate-actions-reconcile.ts:348-349 | The report has a finding for exactly the days of the actions that are written |
| CuratedNaming.KeptIsListed | packages/core/src/data/corporate-actions-reconcile.ts:355-374 | The report lists as kept under a day exactly the considered records that an action written on that day names under keeps |
| CuratedNaming.InScopeIff | packages/core/src/data/corporate-actions-reconcile.ts:355-374 | A considered record goes on to be written if and only if no written action supersedes it |
| CuratedNaming.SupersededIsNotWritten | packages/core/src/data/corporate-actions-reconcile.ts:370-383 | A superseded record's source is named by no cash or split entry of its entity, kind and date |
| CuratedNaming.OnDayIsNamed | packages/core/src/data/corporate-actions-reconcile.ts:357-379 | After a run that succeeds every considered record on a written structural action's day is named by some action's supersedes or keeps |
| CuratedNaming.PastEndIsSuperseded | packages/core/src/data/corporate-actions-reconcile.ts:336-379 | Every considered record past a series end is superseded by the very action that sets the end, which is then itself written |
| CuratedNaming.ClassificationAcceptsIff | packages/core/src/data/corporate-actions-reconcile.ts:320-379 | The records pass classification if and only if no two written actions disagree on a name, no two records share an identity, each touched record is named, and none is past an end that is not written |
| CuratedNaming.DisputedIff | packages/core/src/data/corporate-actions-reconcile.ts:411-434 | An action is listed as a disagreement if and only if several sources report it and one does not carry the written value, and as one-sided if and only if one source alone reports it |
| CuratedNaming.WrittenAsReported | packages/core/src/data/corporate-actions-reconcile.ts:402-418 | A cash or split entry carries a source's own terms, a missing pay date read as the ex-date, and never a malformed amount, date or ratio |
| ActionReconciliationLaws.NothingIsInvented | packages/core/src/data/corporate-actions-reconcile.ts:402-418 | Every cash or split entry carries a value and announcement some in-scope source reported, acceptable to the action parser, and a single-source entry names that source |
| ActionReconciliationLaws.HighestRankedIsWritten | packages/core/src/data/corporate-actions-reconcile.ts:406-410 | The written value is that of the first preferred source reporting the action, or of the first source when no preferred one does |
| ActionReconciliationLaws.SeveralSourcesAgree | packages/core/src/data/corporate-actions-reconcile.ts:411-416 | An entry naming two or more sources names exactly those that reported the action with the written value, within the tolerance on cash |
| ActionReconciliationLaws.NothingPastASeriesEnd | packages/core/src/data/corporate-actions-reconcile.ts:31-35 | No cash, split or spin-off entry is dated after the last date of a curated merger or delisting of its entity, written or not |
| ActionReconciliationLaws.CuratedIsWrittenOrListed | packages/core/src/data/corporate-actions-reconcile.ts:248-281 | Every curated action is written with its own sources or listed as out of scope |
| ActionReconciliationLaws.FileHolds | packages/core/src/data/corporate-actions-reconcile.ts:437-438 | The file is sorted, its keys are distinct, and it holds exactly the curated entries and one for each group |
| ActionReconciliationLaws.ListingOrderIsIrrelevant | packages/core/src/data/corporate-actions-reconcile.ts:302-492 | The file, the findings, the disputes and even the refusal are the same for every permutation of the input records |
| ActionRows.DedupeCorporateActionRows | packages/core/src/market/types.ts:199-211 | The loop keeps, row by row, what the preference rule keeps |
| ActionRows.BestIsKept | packages/core/src/market/types.ts:186-197 | Every effective date with rows keeps exactly one: a reconciled one if there is any, and of those alike the greatest id |
| ActionRows.ReadOrderIsIrrelevant | packages/core/src/market/types.ts:199-211 | Rows with distinct ids keep the same actions in whatever order they are read |
| CsvRecords.ParseRecords | packages/core/src/data/curated-corporate-actions.ts:60-100 | The character loop returns what reading the text token by token returns, an unclosed quote included |
| CsvRecords.PrintedRowsAreReadBack | packages/core/src/data/curated-corporate-actions.ts:59-100 | Rows of at least one field, printed as RFC 4180 section 2 with LF or CRLF and quotes at least where needed, are read back as those rows |
| CsvRecords.LineNumbersAreTrueIff | packages/core/src/data/curated-corporate-actions.ts:64-96 | A record's reported line is one plus the line breaks before it if and only if no bare CR was printed before it |
| CsvRecords.BareReturnMisreportsALine | packages/core/src/data/curated-corporate-actions.ts:64-96 | A quoted bare CR and a second row: the record on line 3 is reported on line 2 |
| CsvRecords.LoneEmptyFieldIsLost | packages/core/src/data/curated-corporate-actions.ts:94-99 | A file that is one quoted empty field with no line ending is read as no record |
| CsvRecords.ReadQuoted | packages/core/src/data/curated-corporate-actions.ts:70-82 | Inside quotes an escaped text is read back as itself and its line feeds are counted |
| CsvRecords.LastEndingMayBeOmittedIff | packages/core/src/data/curated-corporate-actions.ts:94-99 | The last record may come without a line ending if and only if it is not one empty field, quoted or not; that one is lost |
| CsvRecords.CutInQuotesIsRefusedIff | packages/core/src/data/curated-corporate-actions.ts:68-94 | A printed file cut short inside a quoted field is refused for an unclosed quote, at the line its record starts on, if and only if the cut does not separate the two quotes of an escaped one |
| CsvRecords.CutIsPrefix | packages/core/src/data/curated-corporate-actions.ts:60-100 | Such a text is a prefix of the rows printed whole |
| CsvRecords.HalfPairIsLost | packages/core/src/data/curated-corporate-actions.ts:68-82 | A field cut between the two quotes of an escaped one is read as a shorter field |
| TokenBucket.Pacer.TakeToken | packages/core/src/data/http.ts:208-228 | At any positive rate: a lone waiter that turns twice takes a token if and only if the rate is at least one, after at most one computed sleep however late it wakes; below one it sleeps every turn |
| TokenBucket.LevelStays | packages/core/src/data/http.ts:208-228 | With a nondecreasing clock the level stays between zero and the rate, whoever tries and when |
| TokenBucket.GrantsInEveryWindow | packages/core/src/data/http.ts:208-228 | The grants in every window are at most the rate plus the rate times its seconds |
| TokenBucket.WaitIsEnough | packages/core/src/data/http.ts:218-226 | The computed sleep refills a whole token for a lone waiter |
| TokenBucket.LevelAfter | packages/core/src/data/http.ts:217-224 | In thousandths of a token each millisecond adds the rate up to a full bucket, an attempt is granted if and only if a thousand are there, and takes a thousand |
| TokenBucket.GrantedFromExactly | packages/core/src/data/http.ts:217-226 | At a rate of at least one the next grant is from exactly the first millisecond at which what was left and what the rate added reach a whole token, and the computed sleep is that one |
| TokenBucket.EverGrantedIff | packages/core/src/data/http.ts:208-228 | Some attempt is ever granted if and only if the rate is at least one |
| TokenBucket.HalfATokenIsNeverGranted | packages/core/src/data/http.ts:208-228 | At half a request a second no attempt at any times is granted |
| VolTarget.VolatilityTargetedSeries | packages/core/src/research/benchmarks.ts:169-316 | The merge of sorted activations with the shared sessions gives at each one the product of the steps at the weights in force, and is exact if and only if every activation is placed or changes nothing and every step is exact |
| VolTargetTerms.RefusedIff | packages/core/src/research/benchmarks.ts:169-185 | Activations are refused if and only if one is at a weight that could be worth less than both legs or more than both |
| VolTarget.Consume | packages/core/src/research/benchmarks.ts:229-253 | The cursor loop finds the weights in force at the open and at the close, and reports exactly the activations inside the interval that change the weight |
| VolTarget.PriceStep | packages/core/src/research/benchmarks.ts:265-295 | One step's value factor, reported inexact exactly when a fractional weight crosses skipped sessions or a changed weight has no usable open |
| VolTarget.Leftover | packages/core/src/research/benchmarks.ts:300-309 | No reason is given if and only if every activation after the last shared session repeats the weight before it |
| VolTarget.BlendSeries | packages/core/src/research/benchmarks.ts:51-73 | The blend compounds the simple returns at the weight held into each session, and fails if and only if a return is missing or a weight is outside [0, 1] |
| VolTargetTerms.BlendsIff | packages/core/src/research/benchmarks.ts:51-73 | A shared session blends if and only if both legs' levels at the one before are above zero and the weight is never worth less than one leg nor more than the other |
| VolTargetLaws.ExactIndexIsPortfolioValue | packages/core/src/research/benchmarks.ts:112-129 | An exact index is, at every shared close, the value of the portfolio that rebalances at each acquisition instant; no weight changes anywhere else |
| VolTargetLaws.HalvesCompoundIff | packages/core/src/research/benchmarks.ts:359-407 | A leg's overnight and intraday factors multiply back to its own total-return step if and only if the session has no distribution or opened at its close |
| VolTargetTerms.HalvesAre | packages/core/src/research/benchmarks.ts:392-407 | In raw prices: the intraday half times the raw open is the raw close; the overnight half is the carry of the leg's index, the open in the last point's units, and the session's distribution |
| VolTargetTerms.OvernightWithoutIncome | packages/core/src/research/benchmarks.ts:402-406 | Without a distribution the overnight half is open over close, times the ratio of adjusted closes, times the carry |
| VolTargetTerms.SplitsIff | packages/core/src/research/benchmarks.ts:392-404 | A session can be split if and only if the leg has it, the previous shared one and its bar, a point before it, and every figure read is above zero |
| VolTargetTerms.RestatingKeepsTheHalves | packages/core/src/research/benchmarks.ts:359-407 | Both halves of every session are the same when the leg's raw bars and adjusted closes are restated for a split |
| VolTargetTerms.RestatingKeepsTheIndex | packages/core/src/research/benchmarks.ts:169-316 | So the index at every session is the same whatever share units the two legs are quoted in |
| VolTargetTerms.RestatingKeepsExactness | packages/core/src/research/benchmarks.ts:169-316 | And it is over the same sessions and exact alike |
| VolTargetLaws.IndexIsPortfolioValue | packages/core/src/research/benchmarks.ts:139-168 | Where every step is exact the index is the value of a holding of the two legs that is rebalanced at each shared close and at each open where the weight changes, by whole steps or by overnight and intraday factors |
| VolTargetLaws.NothingChangesInside | packages/core/src/research/benchmarks.ts:164-168 | In an exact index no weight changes strictly between a shared close and the next shared open |
| VolTargetTerms.WeightInForce | packages/core/src/research/benchmarks.ts:229-253 | The weight in force at an instant is that of the last activation not after it, an open coming before the same session's close, and zero before the first |
| VolTargetTerms.InexactIff | packages/core/src/research/benchmarks.ts:255-289 | A step is inexact if and only if a fractional weight is carried over a session, expected or observed in a leg, strictly between its shared closes, or the weight changes at an open where a leg cannot be split |
| VolTargetTerms.UnsplitStep | packages/core/src/research/benchmarks.ts:276-285 | A step not rebalanced at its open, or that cannot be split there, compounds the legs' own returns at the weight held into it |
| VolTargetTerms.CloseToCloseIs | packages/core/src/research/benchmarks.ts:333-338 | A leg's return between two of its sessions is the ratio of its index levels there |
| VolTargetTerms.NoReturn | packages/core/src/research/benchmarks.ts:333-338 | It is nothing where the leg lacks a session or the earlier level is not above zero |
| VolTargetTerms.ActsInOrder | packages/core/src/research/benchmarks.ts:192-196 | The activations are worked by instant, each as often as given |
| VolTargetTerms.PlacedIff | packages/core/src/research/benchmarks.ts:241-309 | With at most one activation at an instant, every activation is placed if and only if the weight changes at no instant but shared opens and closes, and at none after the last |
| VolTargetLaws.OneLegCompounds | packages/core/src/research/benchmarks.ts:255-264 | At weight 0 or 1 daily rebalancing through any skipped levels is the collapsed step |
| VolTargetLaws.FractionalDoesNotCompound | packages/core/src/research/benchmarks.ts:255-258 | A concrete path on which it is not, at weight one half |
| VolTargetLaws.CloseWeightsAreBlend | packages/core/src/research/benchmarks.ts:139-157 | Where no weight changes at an open, the index is the blend at the weights in force at the closes before the sessions |
| VolTargetLaws.SingleWeightIsBlend | packages/core/src/research/benchmarks.ts:139-146 | A single weight acquired by the first shared close gives the blend at that weight, exact if and only if the weight is 0 or 1 or no step skips a session |
| VolTargetLaws.ListingOrderIsIrrelevant | packages/core/src/research/benchmarks.ts:99-100 | Activations at different instants may be listed in any order |
| VolTargetLaws.LaterActivationsChangeNothing | packages/core/src/research/benchmarks.ts:229-240 | A weight acquired after a session's open leaves the index at its close unchanged |
| TotalReturn.Build | packages/core/src/market/series.ts:149-236 | It succeeds if and only if no session is doubled, every close divided by is positive and an ending has a last close; then the points are the adjusted closes, distributions and index of the used bars with the ending realized, and the warnings are those of the splits, the distributions and the ending |
| TotalReturnTerms.BuildsIff | packages/core/src/market/series.ts:163-235 | Sorted bars build if and only if no session is doubled, every close but the last is above zero, and a last close that an ending is paid over is not zero |
| TotalReturnTerms.RefusalIs | packages/core/src/market/series.ts:163-235 | A refusal is for a doubled session if there is one, otherwise for a close that is not above zero before the last, otherwise for an ending paid over a zero last close |
| TotalReturnTerms.OnlyTheEndIsTerminal | packages/core/src/market/series.ts:203-234 | There is a point on each bar's session, and only the ending's point is terminal |
| TotalReturn.Finish | packages/core/src/market/series.ts:224-235 | The ending is realized over the last adjusted close, a delisting before a merger |
| TotalReturn.SortedSplits | packages/core/src/market/series.ts:172-181 | Sorting the splits changes no product of ratios up to any date |
| TotalReturn.AdvanceFactor | packages/core/src/market/series.ts:209-212 | The running factor is the product of the ratios of every split ex by the bar's session |
| TotalReturn.Distributions | packages/core/src/market/series.ts:183-201 | Each session's amount is the sum of the distributions landing on it: the first bar at or after the ex-date, none on or before the first bar; every unvalued, late or moved one is warned of |
| TotalReturnTerms.BarsAre | packages/core/src/market/series.ts:153-162 | The series is over the bars that are tradable, not stale and not past the ending, each as often as given, in session order |
| TotalReturnTerms.LandingIs | packages/core/src/market/series.ts:187-194 | A distribution lands on the first bar at or after its ex-date, and nowhere when there is none |
| TotalReturnTerms.DistributionIs | packages/core/src/market/series.ts:183-201 | Each bar's distribution is the dividends and spin-off values ex since the bar before it; the first bar has none |
| TotalReturnTerms.AdjustedIs | packages/core/src/market/series.ts:172-215 | A close, and a distribution, is divided by the ratios of the splits after its session and by the last |
| TotalReturnTerms.IndexStep | packages/core/src/market/series.ts:216-219 | From one at the first bar the index goes up as the adjusted close with its distribution does over the close before |
| TotalReturnTerms.EndPointIs | packages/core/src/market/series.ts:224-234 | A delisting pays its final price or nothing the day after the last bar, a merger its cash or nothing on its effective date, and the first delisting ends the series before any merger |
| TotalReturnTerms.NoEndPoint | packages/core/src/market/series.ts:154-157 | Without a delisting or merger there is no further point |
| TotalReturnTerms.EndIndexIs | packages/core/src/market/series.ts:224-234 | There the index goes on as the last adjusted close does to what is paid |
| TotalReturnTerms.WarnedIff | packages/core/src/market/series.ts:177-201 | The series warns exactly of what its actions and bars give cause for |
| TotalReturnLaws.BarsRestated | packages/core/src/market/series.ts:159-162 | A restated input yields the restated bars |
| TotalReturnLaws.AdjCloseRestated | packages/core/src/market/series.ts:213-214 | Every adjusted close of a restated history is the old one over the ratio, before the split as after it |
| TotalReturnLaws.RestatementIsNeutralIff | packages/core/src/market/series.ts:137-236 | For any history and any split, restating leaves every point as it is, the terminal one included, if and only if the ratio is one, or no payment ex before the split lands on or after it and the split falls within the bars or no payment at the end is restated |
| TotalReturnLaws.RestatedBuildsAgreeIff | packages/core/src/market/series.ts:149-236 | From the raw bars and actions on: what builds builds restated, and the two series agree under exactly that condition |
| TotalReturnLaws.BuildsRestated | packages/core/src/market/series.ts:159-169 | A history builds if and only if its restatement does |
| TotalReturnLaws.RestatementInvariantIff | packages/core/src/market/series.ts:203-222 | For a split within the bars, the index is unchanged at every bar if and only if nothing is carried over the split or the ratio is one |
| TotalReturnLaws.UnwarnedCarriesNothing | packages/core/src/market/series.ts:185-194 | A series that warns of no moved distribution carries nothing over any split |
| TotalReturnLaws.LateSplitKeepsTheEndIff | packages/core/src/market/series.ts:224-234 | For a split after the last bar the terminal point is unchanged if and only if the ending pays nothing or the ratio is one |
| TotalReturnLaws.CarriedDividendIsNotNeutral | packages/core/src/market/series.ts:185-194 | A dividend ex on a day without a bar, landing after a split, for which restating is not neutral |
| TotalReturnLaws.LateSplitIsNotNeutral | packages/core/src/market/series.ts:224-234 | A cash merger after the last bar with a split in between, for which restating is not neutral |
| TotalReturnLaws.LateSplitLosesTheRatio | packages/core/src/market/series.ts:224-228 | A split after the last bar is not applied: a final price restated for it is worth its ratio less |
| TotalReturnLaws.IndexIsCloseRatio | packages/core/src/market/series.ts:208-222 | Without distributions the index is the ratio of adjusted closes |

## Left out

- SQL text, zod schemas, YAML and JSON loading, the CLI, HTTP fetching and retries, the status server, notifications and file output: input and output, not logic.
- Model-provider code, redaction, report wording, citability labels and policy approval checks: about text, or easy members.
- SHA-256 and canonical JSON: the hash is a free constructor, so injective and never the genesis value; payload text is not modelled.
- decimal.js rounding to 34 digits and floating-point statistics: exact reals, and no statistics.
- Time zones, daylight saving and holiday rules: an abstract sequence of sessions with closing instants.
- `research/simulator.ts`, `strategy/construct.ts`, `research/nav.ts`, the halt machine and the scheduler: their outputs are inputs with stated assumptions (for a simulated order: positive fills whose quantity and remainder add up to the order, and fees at most the notional).
- Overlapping fill windows of two decisions: the holdings laws are about one fill record, as the code covers no more.
- Repeated entity syncs: inserting rows again is what the code does, so no idempotence is claimed; nor are monotone fills across `reconcile`, which takes the broker's totals as they are.
- Log columns `event_json` and `at`, and the joined reason codes of a guard refusal, which are abbreviated to one reason.
- The gateway constructor's configuration refusals and the text rules of the symbol allowlist.
- Halves of gateway operations may run in any order here, with any earlier snapshot, which is a superset of the real schedules.
- Event numbers are unbounded; the code reads ranges up to 2^53 - 1.
- Ledger members `count`, `events` and `latestSeal`: plain queries that would only add easy members. The seal job takes the dates in no particular order, as seals of different dates commute.
- SAVEPOINT outside a transaction: `transaction` never issues it; whether a COMMIT is refused is a rule on the contents given as a parameter.
- TokenBucket.Pacer.TakeToken: observes a given number of turns of a loop that has no bound in the code; a rate of zero, whose computed sleep is infinite, is not modelled.
- The orders of a fill record are a free input, one for each entity, from `strategy/construct.ts`, which is not part of this model; the law on frozen lines assumes of it only that a priced line absent from the target is exited.
- TokenBucket fairness between several waiters: the code promises none.
- Suppressed lists, reconcile breaks and acknowledged codes are sets; the code lists them sorted or as found.
- ShadowHaltLaws.ConsumedOnceIff: one seal instant stands for all arms of a decision; the halt machine that stages re-arms is not part of this model.
- Malformed re-arm payloads, dropped by the reader, and `recordShadowReArm`'s refusals: reading-one-branch facts.
- ActionReconciliation.ReconcileCorporateActions: a refusal names its check, not the offending records' text; entry sources, findings and group values are sets and maps, near matches, per-entity counts and locators are not modelled, and keys are ordered componentwise by number instead of as one joined string.
- CorporateActions.StructuralInScope: what the action parser refuses, and a key it never reads, are one `Malformed` input; the spelling check uses a given upper-case function.
- Ingest's own checks of the vendored file: the same series-end rule again, on the written file.
- The CSV header, column and value checks after the records are split, and the byte-order mark: string handling.
- VolTarget.VolatilityTargetedSeries: requires the equity leg's points in session order, as the series builder makes them; reasons are values instead of sentences.
- TotalReturn.Build: requires positive split ratios, which the action parser enforces; a final value over a zero last close is an error here, where the code's quotient is not finite; warnings are values instead of sentences.
- Metrics, drawdown, CAGR and dispersion in `benchmarks.ts`: statistics.
