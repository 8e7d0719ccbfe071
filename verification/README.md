# A verified model of the reconciliation pipeline

The repository moves money events from payment providers through an
idempotency registry and Kafka into Bronze and Silver tables, matches Silver
transactions into pairs, keeps a ledger of discrepancies, and shows the result
on a dashboard. This project models those parts in Dafny and proves what the
design relies on. `dafny verify dfyconfig.toml` checks all of it.

| file | models |
|---|---|
| `Keys.dfy` | the idempotency key, its two derivations (ingestion and Silver), and which events become rows |
| `Lake.dfy` | Bronze and Silver: what one Kafka message does to the two tables |
| `Worker.dfy` | the consumer loop: retry, rewind, dead-letter, commit |
| `Ingestion.dfy` | the registry and the hand-over of one event to the broker |
| `Delivery.dfy` | all of these as one transition system: concurrent requests, lost acknowledgements, crashes, restarts |
| `Matching.dfy` | the two-tier decision for one source transaction |
| `Greedy.dfy` | the greedy one-to-one loop over a list of candidates |
| `Persistence.dfy` | concurrent matching runs writing pairs through savepoints |
| `Discrepancy.dfy` | the discrepancy classifiers |
| `Ledger.dfy` | discrepancy rows, their append-only event log, single and bulk resolve, missing settlements |
| `Fx.dfy` | FX snapshots, point-in-time lookup |
| `RateLimit.dfy` | token buckets and their LRU store |
| `Money.dfy` | kobo parsing, printing, grouping, compact display, animated counters |
| `ListNav.dfy` | the list-navigation reducer |
| `Velocity.dfy` | the sliding-window velocity check |
| `IsoTime.dfy` | the ISO texts of UTC timestamps, and their order |
| `Common.dfy`, `Sorting.dfy`, `Numerals.dfy`, `Texts.dfy` | lists, filters, a stable sort, decimal digits, text order |

How to read it. Code that updates state is a class whose methods are proved
equal to a specification function (`Take`, `Process`, `PersistAll`, `Bulk`,
`Capture`, `Touch`, ...); the lemmas then speak about those functions over any
run. A transition system is a total function `Next` over labelled steps, in
which a step that is not enabled (an INSERT blocked on another transaction's
row lock, say) changes nothing; `Run` folds it over an arbitrary sequence of
steps, so a statement about `Run(steps)` is a statement about every
interleaving. What the outside world decides (a lost acknowledgement, a
failing query, a provider's quote, the time, a fresh id, the order of a query
plan) is a parameter of a step.

Findings where the code and its own description part ways. The model follows
the code, and the exact condition is proved:

- An accepted event can be answered 200 and never get a Silver row. Once the
  messages under its key are consumed it has one if and only if one of those
  messages is accepted (`Delivery.AnsweredIsRecordedIff`). A Flutterwave charge
  whose first delivery is pending or failed loses its later success this way
  (`Delivery.UnsuccessfulThenSuccessful`); the only other way is a key
  collision with an unrecognised event type (`Delivery.SkippedCopies`,
  `Delivery.UnrecognisedTypeFirst`).
- The key format is not injective. `Keys.KeyCollisions` gives the exact
  collisions; within the event vocabulary there are none
  (`Keys.SilverKeysDistinguish`).
- Matching is independent of the candidates' order if and only if the margin is
  positive, tier 1 has a candidate, or no two top candidates tie
  (`Matching.OrderFreeIff`).
- Greedy matching is not maximal (`Greedy.NotMaximal`), but only ties are to
  blame: of two transactions that could form an exact pair, one is matched as
  soon as one of the two has no tie up to the distance between them
  (`Greedy.UntiedPairIsTaken`, `Greedy.MaximalWithoutTies`). A list with ties
  may still come out maximal; what is exact is a single turn: a source is
  matched from every list that offers it an exact candidate if and only if no
  two candidates tie for it (`Matching.AlwaysMatchedIff`).
- "Discrepancy" on a pair means outside 0.5%; the pair's own FX flag uses a
  configurable threshold. In every run they part ways on exactly the pairs
  between the two (`Persistence.ThresholdsDisagree`,
  `Persistence.FlaggedWithinThreshold`).
- The audit trail is listed by transaction start time. It comes out as it was
  written if and only if the transactions that wrote to the discrepancy began
  in the order in which they wrote (`Ledger.ListedInOrderIff`); a severity
  change can be listed after the resolution that followed it
  (`Ledger.ResolvedBeforeItChanged`). Run times that go backwards can lower a
  severity (`Ledger.SeverityFallsIff`).
- `sumKobo` is described as exact; it rounds each value to kobo first. Sums
  over a set of values are exact if and only if each has only zeros after its
  second decimal (`Money.SumsExactIff`, `Money.SumNotExact`).
- The velocity check sorts timestamps as text. It is right on every list drawn
  from a set of timestamps if and only if nothing sorts, as text, between two
  near ones without lying within ten minutes of both (`Velocity.ExactIff`). The
  texts the report flow passes, all in UTC, are such a set
  (`Velocity.FlowReportsCountBursts`). Mixed offsets, which only a direct caller
  of `generate_daily_return` can pass, are not
  (`Velocity.MixedOffsetsMislead`).

## Model

| member | source | states |
|---|---|---|
| Keys.KeyCollisions | src/engine/idempotency.py:29-50 | for PSP names without a colon (they are constants of the code) two triples share a key iff they agree on all normalised parts, or the event type of one spells out the tail of the other's reference |
| Keys.StripTakesWhiteSpace | src/engine/idempotency.py:44-50 | stripping takes away exactly the white space around a text |
| Keys.KeyIgnoresCase | src/engine/idempotency.py:40-42 | a difference in case of PSP or event type never gives two identical events different keys |
| Keys.KeyIgnoresSurroundings | src/engine/idempotency.py:44-50 | neither does white space around the reference |
| Keys.EventTypeIsTaken | src/connectors/paystack.py:72-74 | a named event keeps its name; an empty one is unknown |
| Keys.ReferenceIsTaken | src/flows/ingestion_flow.py:55-61 | an event is registered under its PSP's own reference, tx_ref before reference for Flutterwave |
| Keys.UnreferencedKeys | src/flows/ingestion_flow.py:61-61 | events without a reference share a key iff their content hashes begin with the same 32 characters |
| Keys.AcceptedIff | src/engine/normaliser.py:53-105 | exactly the events of the vocabulary are accepted, each with its transaction type and settlement, Flutterwave's by its status |
| Keys.NormalisedIff | src/engine/normaliser.py:129-218 | a payload gives a row exactly when its event means something and its reference is not blank, and is retried exactly when its event field is missing or no scalar |
| Keys.RowMeans | src/engine/normaliser.py:129-216 | a Silver row has the PSP, event type, stripped reference, transaction type and settlement of its event |
| Keys.SilverKeyIsIngestKey | src/flows/ingestion_flow.py:49-80 | for every accepted event with a text event type: a Silver row exists iff the reference is not blank, a blank one is permanent, and the row's key is the key registered at ingestion |
| Keys.SilverKeysDistinguish | src/engine/normaliser.py:111-134 | Silver keys are equal iff PSP, reference and event type are: deduplication never merges two transactions |
| Keys.UnrecognisedTypeCollides | src/engine/idempotency.py:44-50 | outside the vocabulary two different events do share a key, and the one with the unknown type is always skipped |
| Lake.TransformFlow.WriteBronzeParquet | src/flows/transform_flow.py:99-138 | one Bronze row per offset; a replay changes nothing and returns the first row |
| Lake.TransformFlow.NormaliseToSilver | src/flows/transform_flow.py:196-236 | the unique key keeps the first row; a duplicate changes nothing and returns the owner |
| Lake.TransformFlow.ProcessKafkaMessage | src/flows/transform_flow.py:242-279 | the step-by-step code computes `Process` for every message and every failure |
| Lake.ProcessEffects | src/flows/transform_flow.py:242-279 | whatever fails, tables only grow, only this offset's Bronze row and this event's key are touched, Silver stays write-once, and a finished attempt left its mark |
| Lake.OutcomeIff | src/flows/transform_flow.py:242-279 | exactly when a message is finished, when its failure is permanent, and which Bronze and Silver row it leaves |
| Lake.WriteSilverKeepsWriteOnce | src/flows/transform_flow.py:222-236 | Silver stays equal to the map that keeps the first offer per key |
| Worker.DeadLetterTopic.Publish | src/flows/consumer_worker.py:181-190 | an acknowledged entry is stored; a failed publish may or may not have stored it |
| Worker.ConsumerWorker.PublishDeadLetter | src/flows/consumer_worker.py:173-199 | true only for an acknowledged entry, which alone counts as failed |
| Worker.ConsumerWorker.HandleMessage | src/flows/consumer_worker.py:120-171 | undecodable and permanent errors are dead-lettered, transient ones counted and given up at the fifth; true exactly when the offset may be committed |
| Worker.ConsumerWorker.Iterate | src/flows/consumer_worker.py:91-111 | one pass of the loop: commit exactly this offset and reset, or rewind to it and double the backoff |
| Worker.ConsumerWorker.Start | src/flows/consumer_worker.py:78-111 | the loop over any messages computes `TakeAll` |
| Worker.LoopHeadAlways | src/flows/consumer_worker.py:90-111 | at every loop head the backoff is in [1, 60], at most one retry counter per partition, at its current position, and reading stands at the committed offset |
| Worker.AccountAlways | src/flows/consumer_worker.py:120-171 | the exact number of rewinds of the message in hand: its transient failures short of the limit plus its failed dead-letter publishes |
| Worker.RewindBound | src/flows/consumer_worker.py:90-171 | within one process an offset is rewound at most four times plus once per failed dead-letter publish |
| Worker.CommittedProgress | src/flows/consumer_worker.py:90-111 | of the turns spent on a partition all but four, and but the failed dead-letter publishes, are paid for by committed offsets at five turns an offset |
| Worker.RetryPolicy | src/flows/consumer_worker.py:90-199 | over any turns: a transient error short of the fifth of its message is retried with nothing committed or dead-lettered; undecodable and permanent failures and the fifth transient one are dead-lettered, and committed when that is acknowledged; counters, backoff and offsets exactly |
| Worker.DeadLettersHaveCauses | src/flows/consumer_worker.py:125-162 | nothing else is ever dead-lettered |
| Ingestion.KeyRegistry.CheckAndRegister | src/engine/idempotency.py:53-104 | one upsert tells new from duplicate and counts the occurrence |
| Ingestion.EventLog.Produce | src/storage/kafka_producer.py:58-102 | an acknowledged message is in the log; an unacknowledged one may be |
| Ingestion.IngestEvent | src/flows/ingestion_flow.py:64-119 | register, publish, then commit or roll back, for every publish result |
| Delivery.AlwaysInv | src/flows/ingestion_flow.py:88-119 | the protocol's invariant (locks, registry, logs, offsets, tables) holds in every reachable state |
| Delivery.NoLoss | src/flows/consumer_worker.py:90-199 | in every reachable state each event answered 200 has a message under its key in the logs, and each offset below a committed offset is in Silver, skipped with its Bronze row, or in the dead-letter topic |
| Delivery.IngestedReachesSilver | src/flows/transform_flow.py:242-279 | a committed, genuine, unskipped message that was not dead-lettered has a Silver row under the very key it was registered with |
| Delivery.EffectivelyOnce | src/flows/transform_flow.py:99-135 | under any redelivery, double publish or restart Silver equals the first-offer map, every offer is the row of a logged message with its Bronze row, and Bronze is the log's content per offset |
| Delivery.RunExtends | src/flows/transform_flow.py:196-236 | no continuation of a run changes or drops a log entry, a Bronze or Silver row, or a dead letter |
| Delivery.RegistryCounts | src/engine/idempotency.py:53-104 | occurrence_count equals the committed calls of a key, and exactly one of them was told "new" |
| Delivery.RetryAfterFailedPublishIsNew | src/storage/postgres.py:112-121 | after a failed publish rolls back, whatever else happens, the first delivery of the event to begin is new again |
| Delivery.RewindBoundAlways | src/flows/consumer_worker.py:90-171 | in every run, since the worker last started, an offset is rewound at most four times plus once per failed dead-letter publish |
| Delivery.DeadLetterHasCause | src/flows/consumer_worker.py:125-162 | in every run a message is dead-lettered only when undecodable, after a permanent error, or after at least five transient errors since the worker started |
| Delivery.TransientIsRetried | src/flows/consumer_worker.py:148-161 | in every run a transient error with fewer than four before it leaves offsets and dead letters alone and the worker at the same message, one attempt counted |
| Delivery.RowsTellTheEvent | src/flows/transform_flow.py:196-236 | in every run each Silver row says what its message's event means, and its Bronze row carries the message's PSP and hash |
| Delivery.NewEventIsPublished | src/flows/ingestion_flow.py:99-119 | in every run an event answered as new is itself in the logs, with its own type, payload and hash |
| Delivery.AnsweredIsRecordedIff | src/flows/ingestion_flow.py:88-119 | an accepted event that was answered 200, once what is logged under its key is consumed and not dead-lettered, has a Silver row (for its PSP, reference and type) iff one of those messages is accepted |
| Delivery.SkippedCopies | src/engine/normaliser.py:79-105 | a skipped message under the key of an accepted event differs from it only in the content that decides acceptance, or by an unrecognised type that spells out the tail of its reference |
| Delivery.SkippedFirst | src/flows/ingestion_flow.py:88-97 | if the first event under a key is skipped, a later accepted one is answered as a duplicate and gets no row and no dead letter |
| Delivery.UnsuccessfulThenSuccessful | src/engine/normaliser.py:91-103 | a charge delivered first without success and then with it never gets a row |
| Delivery.UnrecognisedTypeFirst | src/engine/idempotency.py:44-50 | nor does an event whose key an unrecognised type has taken |
| Delivery.FailedPublishFreesKey | src/flows/ingestion_flow.py:107-115 | a failed publish leaves no registry row and no lock on the key |
| Delivery.IngestAloneIsARun | src/flows/ingestion_flow.py:64-119 | the sequential code is the protocol's Begin, Produce and Commit |
| Delivery.TakeIsARun | src/flows/consumer_worker.py:91-111 | one loop pass is the protocol's Poll, handler, dead-letter publish and settlement |
| Matching.ComputeConfidenceEvidence | src/engine/matching.py:126-164 | the field-by-field code yields the four scores |
| Matching.EligibleIff | src/engine/matching.py:109-119 | eligible means another transaction of another PSP, unmatched, credit against debit |
| Matching.WithinIff | src/engine/matching.py:122-123 | the distance counts in both directions |
| Matching.TimeScoreLaw | src/engine/matching.py:142-145 | linear in the distance, full exactly at zero, nothing exactly from the window on |
| Matching.AmountScoreLaw | src/engine/matching.py:132-140 | linear in the relative delta, full exactly for equal amounts, nothing exactly from the tolerance on |
| Matching.SimilarityLaw | src/engine/pii.py:178-195 | full exactly for equal names or a contained one of two or more words, nothing exactly without a common word, Dice's share otherwise, symmetric |
| Matching.BankLevels | src/engine/matching.py:156-163 | equal known banks before banks unknown on both sides before any others |
| Matching.NameLevels | src/engine/matching.py:146-155 | names unknown on both sides before a name known on one side only |
| Matching.NearerScoresHigher | src/engine/matching.py:230-235 | of two candidates alike otherwise the nearer one scores higher |
| Matching.CloserAmountScoresHigher | src/engine/matching.py:230-235 | so does the one of the closer amount |
| Matching.SameBankScoresHigher | src/engine/matching.py:230-235 | so does the one at the source's known bank |
| Matching.MoreSimilarScoresHigher | src/engine/matching.py:230-235 | so does the one with the more similar name |
| Matching.ScoreBounded | src/engine/matching.py:230-235 | with validated weights every score is in [0, 1] |
| Matching.ScorableIff | src/engine/matching.py:223-229 | tier 2 scores exactly the eligible candidates inside the window and the amount tolerance |
| Matching.ClearWinner | src/engine/matching.py:238-270 | with nothing for tier 1, a candidate at the threshold that beats every other by the margin is the match |
| Matching.RunnerUpTooClose | src/engine/matching.py:243-252 | a runner-up within the margin makes the source ambiguous |
| Matching.NobodyReaches | src/engine/matching.py:239-240 | without a candidate at the threshold there is no match and no ambiguity |
| Matching.NearCreditWins | src/engine/matching.py:215-301 | two credits that differ only in their distance: the near one is matched |
| Matching.ScoreAndDecide | src/engine/matching.py:215-270 | the collecting loop, the sort and the guards compute the tier-2 decision |
| Matching.RunMatchingSound | src/engine/matching.py:273-301 | a match names an eligible candidate, cross-PSP, credit against debit, inside its tier's window and tolerance, with confidence in [threshold, 1] and exact delta |
| Matching.ExactCandidateDecides | src/engine/matching.py:177-212 | an exact-amount candidate in the window leads to a match or to an ambiguity refusal |
| Matching.NearestWins | src/engine/matching.py:184-212 | a candidate strictly nearer than every other exact one is the match |
| Matching.NearestTie | src/engine/matching.py:195-202 | two nearest exact candidates at one distance are refused |
| Matching.OrderIndependence | src/engine/matching.py:215-301 | with a positive margin every permutation of the candidates gives the same result |
| Matching.OrderFreeIff | src/engine/matching.py:177-301 | for any list: every order gives the same result iff the margin is positive, tier 1 has a candidate, or no two top candidates tie |
| Matching.TiedPairNeedsMargin | src/engine/matching.py:243-252 | for a list of two tied candidates: without a margin the first one listed wins |
| Matching.UntiedIsMatched | src/engine/matching.py:184-212 | with an exact candidate and no tie up to its distance the source is matched |
| Matching.AlwaysMatchedIff | src/engine/matching.py:195-202 | a source is matched from every duplicate-free list over a pool that offers an exact candidate iff no two in the pool tie for it |
| Greedy.MatchAll | src/flows/matching_flow.py:143-162 | the loop computes the greedy specification |
| Greedy.MatchAllSound | src/flows/matching_flow.py:143-162 | after any number of turns the pairs are disjoint, exactly their ends are withheld from later turns, and each pair is a sound match of two listed candidates |
| Greedy.LeftoversWereAmbiguous | src/flows/matching_flow.py:143-162 | two leftovers that could form an exact pair were each refused as ambiguous at their own turn |
| Greedy.UntiedPairIsTaken | src/flows/matching_flow.py:143-162 | of two that could form an exact pair one is matched, if one of the two has no tie up to the distance between them |
| Greedy.MaximalWithoutTies | src/flows/matching_flow.py:143-162 | a list without ties in the primary window is matched maximally |
| Greedy.NotMaximal | src/flows/matching_flow.py:143-162 | six transactions on which two eligible ones are left over |
| Persistence.OneToOneAlways | src/flows/matching_flow.py:165-222 | for any interleaving of runs, savepoint rollbacks and aborts: each committed pair owns exactly its two index entries, no transaction is in two pairs, the index has two entries per pair, a pair is a discrepancy iff a discrepancy row points at it |
| Persistence.DiscrepanciesAreClassified | src/flows/matching_flow.py:240-262 | in every run an amount discrepancy points at a pair of its transaction and has the class of that pair's amounts and rates |
| Persistence.WrittenIff | src/flows/matching_flow.py:179-221 | a pair is written, and indexed for both transactions, unless it exists or one of them is matched |
| Persistence.CountersAreExact | src/flows/matching_flow.py:174-222 | the two counters are the numbers of new pairs and new discrepancies |
| Persistence.DiscrepantIffOutsideThreshold | src/flows/matching_flow.py:225-277 | at the default threshold a pair is a discrepancy iff it is flagged as outside it |
| Persistence.ThresholdsDisagree | src/engine/discrepancy.py:64-96 | for any configured threshold, in every run: status and flag agree on a committed pair iff its delta is on one side of both thresholds |
| Persistence.FlaggedWithinThreshold | src/flows/matching_flow.py:225-277 | a run at threshold 1% that commits a pair within it as a discrepancy |
| Persistence.SoundMatchesAreProper | src/engine/matching.py:254-270 | what matching returns satisfies what persistence assumes |
| Persistence.GoldTables.InsertIndexed | alembic/versions/015_integrity_hardening.py:147-153 | the primary key rejects a transaction that is already matched |
| Persistence.GoldTables.RaiseAmountDiscrepancy | src/flows/matching_flow.py:225-277 | at most one row per transaction and class, and the pair is marked exactly when a row was inserted |
| Persistence.GoldTables.PersistPair | src/flows/matching_flow.py:179-221 | one savepoint: all of a pair's rows or none |
| Persistence.GoldTables.PersistPairs | src/flows/matching_flow.py:165-222 | the loop, its tables and both counters |
| Persistence.SavepointIsPersistOne | src/flows/matching_flow.py:180-221 | the statement-by-statement savepoint of the transition system has the effect the code computes |
| Discrepancy.AmountVerdicts | src/engine/discrepancy.py:160-211 | for positive amounts a verdict is given iff the relative delta exceeds 0.5%, over the absolute delta; FX variance of low severity iff both rates are known and their relative move is within 0.25 points of it, else an amount mismatch, high above 1% |
| Discrepancy.ZeroAmounts | src/engine/discrepancy.py:64-96 | a second amount of zero is a missing settlement |
| Discrepancy.MissingVerdicts | src/engine/discrepancy.py:115-142 | nothing until due, medium for a day, high for another, then critical |
| Ledger.SqlMirrorsPython | src/flows/matching_flow.py:76-78 | the SQL severity equals the Python classifier's on every selected row |
| Ledger.DiscrepancyTables.RaiseFromPair | src/flows/matching_flow.py:240-275 | ON CONFLICT DO NOTHING, with a raised event exactly when a row was inserted |
| Ledger.DiscrepancyTables.UpsertRow | src/flows/matching_flow.py:67-102 | insert, or change the severity of an open row, with the matching event |
| Ledger.DiscrepancyTables.RaiseMissingSettlements | src/flows/matching_flow.py:280-287 | the whole statement, and the count of newly raised rows |
| Ledger.DiscrepancyTables.ResolveDiscrepancy | src/api/v1/routes/reconciliation.py:409-464 | not found iff there is no row, already closed iff its status is; otherwise the row takes the outcome's status and one event says so |
| Ledger.DiscrepancyTables.BulkResolve | src/api/v1/routes/reconciliation.py:478-535 | the new ledger for any plan order, and the resolved and skipped lists |
| Ledger.AuditReplay | src/flows/matching_flow.py:67-103 | in every reachable state each history begins with raised (none to open), chains, ends at the row's status, has at most one closing event, last; one row per transaction and class |
| Ledger.ClosedForever | alembic/versions/014_add_severity_and_unique_constraint.py:35-38 | nothing that follows changes a closed row, adds to its history, or raises its key again |
| Ledger.BulkRefinesEach | src/api/v1/routes/reconciliation.py:501-530 | bulk resolve leaves rows and every history as resolving the sorted distinct ids one by one does |
| Ledger.BulkCloses | src/api/v1/routes/reconciliation.py:520-530 | bulk resolve closes exactly the requested rows that are not closed, with the outcome asked for |
| Ledger.BulkReport | src/api/v1/routes/reconciliation.py:489-535 | resolved and skipped split the requested ids: those with a row that is not closed, those without a row, those closed already |
| Ledger.RequestedFacts | src/api/v1/routes/reconciliation.py:486-486 | the lock order lists each requested id once, ascending |
| Ledger.OverdueIff | src/flows/matching_flow.py:60-65 | the statement selects exactly the pending, unmatched credits and debits past their due time |
| Ledger.MissingRunCovers | src/flows/matching_flow.py:56-103 | after a run every selected transaction has its row, an open one with the Python classifier's severity, and no other row is raised or changed |
| Ledger.MissingRunIsARun | src/flows/matching_flow.py:56-103 | the statement is a run of the row-by-row steps |
| Ledger.SeverityNeverFalls | src/engine/discrepancy.py:131-142 | with nondecreasing run times no severity ever falls, whatever else happens in between |
| Ledger.SeverityFallsIff | src/flows/matching_flow.py:87-92 | for any open row last classified at one time, a run at another lowers its severity iff that time is earlier and the classifier differs |
| Ledger.SeverityCanFall | src/flows/matching_flow.py:87-92 | a concrete case: critical becomes medium |
| Ledger.ListedInOrderIff | src/api/v1/routes/reconciliation.py:381-386 | the API lists a discrepancy's events as written iff the transactions that wrote to it began in the order in which they wrote |
| Ledger.SerialStartsListInOrder | src/api/v1/routes/reconciliation.py:381-386 | if all transactions take effect in the order in which they began, every trail is listed as written |
| Ledger.ResolvedBeforeItChanged | alembic/versions/015_integrity_hardening.py:185-198 | a run whose trail shows a severity change after the resolution that followed it |
| Fx.SnapshotTable.ExpireCurrent | src/engine/fx.py:82-91 | the update, or its rejection by the table's CHECK constraint |
| Fx.SnapshotTable.CaptureFxRates | src/engine/fx.py:60-117 | the loop over the pairs: failed quotes are skipped, a failed constraint undoes the whole capture |
| Fx.TiledAlways | src/engine/fx.py:81-108 | after any captures, at any times, each pair's validity intervals follow one another without gap or overlap and exactly the last is open |
| Fx.LaterCapturesSucceed | alembic/versions/004_silver_fx_snapshots.py:47-60 | a capture succeeds iff it is later than the open snapshot of every pair it replaces |
| Fx.LookupIsExact | src/engine/fx.py:120-165 | the lookup returns exactly the snapshot whose interval contains the instant; before the first, that one if at most two hours later; else nothing |
| Fx.CurrentAgrees | src/engine/fx.py:168-188 | there is at most one current rate, and the lookup returns it exactly from its capture on (or within the tolerance, if it is the only one) |
| Fx.PastLookupsStand | src/engine/fx.py:120-165 | a later capture never changes a past lookup of a pair with history |
| Fx.QuoteIsReturned | src/engine/fx.py:60-117 | a capture that goes through makes each usable quote the pair's one current rate, returned by every lookup from then on, and leaves the other pairs alone |
| Fx.LookupReturnsQuote | src/engine/fx.py:120-165 | after any attempts a lookup returns the quote of the last capture that went through and quoted the pair by then, or the first one within two hours |
| RateLimit.TokenBucket.Consume | src/api/middleware/rate_limit.py:53-62 | refill, then take one token if there is one |
| RateLimit.TokensInRange | src/api/middleware/rate_limit.py:41-62 | after any calls the tokens are in [0, capacity] |
| RateLimit.RateBound | src/api/middleware/rate_limit.py:53-62 | for nondecreasing call times, admissions in [t1, t2] are at most capacity + capacity * (t2 - t1) / 60 |
| RateLimit.BurstAdmitsTokens | src/api/middleware/rate_limit.py:53-62 | calls at one instant are admitted exactly as long as whole tokens last; a full bucket admits its capacity |
| RateLimit.SteadyCallerAdmitted | src/api/middleware/rate_limit.py:53-62 | calls 60 / capacity seconds apart are never refused |
| RateLimit.BucketStore.Get | src/api/middleware/rate_limit.py:76-84 | the stored bucket if its capacity fits, else a full new one, moved to the end; the oldest are evicted |
| RateLimit.RecencyFacts | src/api/middleware/rate_limit.py:81-84 | the reference order lists exactly the requested keys, once each, strictly by last request |
| RateLimit.HoldsMostRecent | src/api/middleware/rate_limit.py:76-84 | the store holds exactly the most recently requested keys, up to its size, in recency order |
| RateLimit.AgreesWithUnbounded | src/api/middleware/rate_limit.py:76-84 | for a held key the store's bucket is the one an unbounded map would hold iff the key was not evicted since that bucket was created |
| Money.RoundTrip | dashboard/lib/money.ts:136-140 | parsing a printed amount returns it, for every integer |
| Money.AcceptedIff | dashboard/lib/money.ts:9-23 | exactly the grammar is accepted, and read as it is written |
| Money.SpaceIsIgnored | dashboard/lib/money.ts:21-21 | white space around the text is ignored |
| Money.RoundsHalfAwayFromZero | dashboard/lib/money.ts:19-27 | for any number of decimals the result is the exact value rounded half away from zero; exact up to two decimals |
| Money.ExactIffNoFurtherDecimals | dashboard/lib/money.ts:24-25 | parsing loses nothing iff all decimals after the second are zero |
| Money.SumAccuracy | dashboard/lib/money.ts:62-65 | a sum is off by at most half a kobo per value |
| Money.SumsExactIff | dashboard/lib/money.ts:62-65 | every sum over a set of values is exact iff each of them has only zeros after its second decimal |
| Money.SumNotExact | dashboard/lib/money.ts:62-65 | a sum that is not exact |
| Money.GroupingUndone | dashboard/lib/money.ts:29-31 | removing the commas restores the digits, and the commas are exactly every fourth character from the right |
| Money.DisplayIsExact | dashboard/lib/money.ts:34-40 | reading the full display back gives the exact kobo |
| Money.CompactNeverExceeds | dashboard/lib/money.ts:103-116 | reading the compact display back gives the same sign, never more than the amount, and less than a tenth below its naira |
| Money.CompactIsShort | dashboard/lib/money.ts:103-116 | below a quadrillion naira the compact display has at most five characters besides sign and currency, so no larger step is passed over |
| Money.InterpolationMonotone | dashboard/lib/money.ts:123-128 | interpolation stays between its endpoints, reaches them, and never moves away from its target |
| Money.InterpolationClose | dashboard/lib/money.ts:123-128 | it is within one kobo and half a ten-thousandth of the distance of the exact point of the way |
| ListNav.FindSuccessor | dashboard/lib/list-nav.ts:34-47 | the two scans compute the successor |
| ListNav.VanishedCursor | dashboard/lib/list-nav.ts:34-59 | a vanished cursor lands on the nearest surviving later row, else the nearest earlier, else the first new row |
| ListNav.NavAlways | dashboard/lib/list-nav.ts:49-101 | for any actions the cursor is null or listed and the selection is a duplicate-free subsequence of the ids |
| ListNav.CursorMoves | dashboard/lib/list-nav.ts:60-72 | where move, first and last take the cursor |
| ListNav.SyncKeepsRows | dashboard/lib/list-nav.ts:51-59 | a refetch keeps cursor and selection on their rows as far as they are still there |
| ListNav.SelectionChanges | dashboard/lib/list-nav.ts:76-90 | which rows toggle, toggle all and clear leave selected |
| ListNav.KeysAreSeparate | dashboard/lib/list-nav.ts:60-90 | cursor keys leave the selection alone and selection keys the cursor |
| ListNav.RemoveIsSync | dashboard/lib/list-nav.ts:91-99 | remove equals sync with the filtered list |
| ListNav.ToggleTwice | dashboard/lib/list-nav.ts:76-83 | toggling an id twice is the identity |
| ListNav.MoveThereAndBack | dashboard/lib/list-nav.ts:60-68 | moving by delta and back returns iff the first move stays on the list, or overshoots it from the opposite end |
| Velocity.IsAnomalous | src/engine/cbn_report.py:201-213 | the inner loop flags iff some timestamp and the fifth after it are near |
| Velocity.GroupByBeneficiary | src/engine/cbn_report.py:196-199 | the grouping loop collects each beneficiary's timestamps in order |
| Velocity.SameGroupIff | src/engine/cbn_report.py:198-199 | transactions are counted together iff they name the same masked account, a missing field counting as unknown |
| Velocity.BurstIsSix | src/engine/cbn_report.py:188-215 | a burst is six distinct transactions of the beneficiary within ten minutes |
| Velocity.DetectVelocityAnomalies | src/engine/cbn_report.py:188-215 | the count of flagged beneficiaries |
| Velocity.NoFalseNegatives | src/engine/cbn_report.py:204-211 | with timestamps of one kind every burst is flagged, however their texts sort |
| Velocity.ExactIff | src/engine/cbn_report.py:203-211 | the detector agrees with "six within ten minutes" on all lists from a set of timestamps iff text order follows time closely enough among them |
| Velocity.FalseAlarm | src/engine/cbn_report.py:203-211 | any offending triple gives a flagged list without a burst |
| Velocity.ChronologicalIsExact | src/engine/cbn_report.py:203-211 | timestamps whose texts sort by time are such a set |
| IsoTime.TextOrderIsTimeOrder | src/flows/daily_report_flow.py:64-64 | for UTC timestamps rendered with or without a fraction of a second, what sorts first as text is not later |
| IsoTime.IsoInjective | src/flows/daily_report_flow.py:64-64 | such a text names one instant |
| Velocity.FlowTextsFollowTime | src/flows/daily_report_flow.py:64-65 | the texts the report flow passes are such a set |
| Velocity.FlowReportsCountBursts | src/flows/daily_report_flow.py:64-65 | in the flow's reports exactly the beneficiaries with six distinct transactions within ten minutes are counted |
| Velocity.CountsBursts | src/engine/cbn_report.py:188-215 | the count is then the number of beneficiaries with a burst |
| Velocity.MixedOffsetsMislead | src/engine/cbn_report.py:203-211 | three ISO texts with mixed offsets that raise a false alarm |

## Left out

- HTTP, signatures, authentication, the PSP polling clients, metrics and logging: a polled or posted event is one `Arrive` step.
- The Kafka, MinIO and Postgres clients: the broker is append-only logs, Postgres is atomic steps with unique keys, row locks and savepoints. Which partition a message goes to is any; consumer-group rebalancing, broker retention and messages without a position are not modelled.
- Field extraction, masking, name tokens, narration, amount and timestamp parsing, schema validation and FX resolution of the normalisers: their failures are the choices of `Lake.Weather`, taken after Bronze is written; their values are not modelled.
- Float and Decimal rounding (including `round(..., 4)` of a stored confidence): scores, amounts, rates and tokens are exact reals, times are microseconds (seconds in the rate limiter).
- Delivery.AnsweredIsRecordedIff: assumes that every logged message came through ingestion; another producer on the topics could write anything.
- Keys.SilverKeyIsIngestKey: `lower()` is modelled on ASCII letters only, and the statement assumes that the payload's event field is text, as for every event a connector labels.
- Evidence and notes: the contents of match evidence, discrepancy evidence, actors and resolution notes are not kept in the rows.
- Persistence.OneToOneAlways: assumes of the items what `Persistence.SoundMatchesAreProper` proves of matching results, for positive amounts; deadlocks between runs show up as aborts.
- Ledger.SeverityNeverFalls: assumes that a transaction's expected settlement time does not change; nothing in the modelled code changes it.
- Ledger.DiscrepancyTables.BulkResolve: ids compare as numbers, where the source compares UUID texts; no result depends on which order it is.
- Fx.TiledAlways: captures are serial, as in one scheduled job; the skip when no API key is configured leaves the table alone and is not modelled.
- Money.InterpolationMonotone: `t` is an exact real, so the float rounding of `t * 10_000` is not modelled.
- Velocity.FlowReportsCountBursts: assumes that `fromisoformat` reads what `isoformat` writes, and that the database driver returns timestamps in UTC.
- Velocity.DetectVelocityAnomalies: a transaction whose timestamp is present but null makes the source's sort raise; such inputs are not modelled. What `fromisoformat` returns is a parameter.
- The totals loop of the daily return, settlement-window arithmetic, configuration validation, `convert_to_ngn`, `koboRatio`, `maxKobo`, the remaining formatters and the read-only endpoints: they would add only easy members.
- Optimal or stable matching: the greedy loop does not aim at it.
