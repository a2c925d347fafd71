# vsms coordination core: a Dafny model

An SMS gateway that uses Postgres as its only synchronisation tool. Most of its interesting code is a
small protocol of separately committed statements whose comments claim safety under any concurrency.
This project models those protocols as the code has them and proves what they promise, for every
interleaving, every history or every input.

| file | models |
|---|---|
| `nonce_store.dfy` | the envelope's replay cache: insert, read, delete by row id, insert once more |
| `canonical_json.dfy`, `audit_log.dfy` | the tamper-evident audit log: canonical JSON, framed rows, the fold, the anchor chain, its verifier |
| `lookup_budget.dfy` | the hourly budget of delivery lookups: insert first, count after, no lock |
| `dlr.dfy` | delivery receipts: read, record, compare-and-swap on a version, racing receipts and the worker |
| `signing_keys.dfy` | publishing signing keys under two locks; the single-flight, rate-limited forced reload |
| `ttl_cache.dfy` | the time-to-live cache under concurrent callers over rows that change |
| `doors.dfy` | the signed and the bearer door over one shared cache of standings; contexts and permissions |
| `key_registration.dfy` | registering, pairing and revoking keys over a unique index, with one retry |
| `migrations.dfy` | the migrator: advisory lock, one transaction per migration, crashes |
| `limiters.dfy` | the sign-in limiter and the `/token` limiter over token buckets |
| `delivery_answers.dfy` | what a delivery lookup plans, selects and answers |
| `pem.dfy` | the server key's PEM printer and parser, with base64 |
| `bytes.dfy` | byte strings, frames, hex, white space, finite sets |

## How concurrency is modelled

A protocol is a total function `Apply` over events, and a run is `Exec` over a list of events. An event
whose guard is false leaves the state alone, so every list of events is an interleaving and every
interleaving is a list of events. A theorem "for every run" quantifies over the list. History variables
(an acceptance log, a path of states, the past of the source) record what a property speaks of. Where the
source is a loop or an object updated in place, the same code is also a method or a class here, proved
against the same definitions.

What is assumed of the environment:

- one clock that never runs backwards;
- an autocommitted statement takes effect at one moment; one that reports an error may or may not have
  taken effect. A revocation's transaction takes effect at one moment. A registration's transaction is given
  less: its reads see one moment and its writes another, later one, as weaker isolation would allow, so what
  is proved of it needs no serializable transaction;
- unique indexes are enforced, and row ids are never reused;
- every write of a message bumps its `version`, and other writers take only edges of the transition table;
- the nonce sweeper deletes expired rows only;
- a fetch that fills the cache takes no longer than a bound that every statement about the cache names;
- SHA-256 has no collision *among the strings actually hashed* in the statement at hand and does not give
  the genesis value on any of them. (A hash injective on all byte strings and 32 bytes wide does not
  exist; assuming one would prove anything.)

## Where the code and its comments part

Each of these names a concrete input or run, and the exact condition under which the comment is right.

- A deactivation or a role change takes effect within one time to live and one fetch, less a tick, not
  within one time to live: the entry is stamped when the value lands, not when it was read. That bound is
  exact (`CacheRace.BoundIsExact`); one time to live is enough exactly when a fetch takes no time, or one
  tick (`CacheRace.WithinOneTimeToLive`).
- A person's standing is made of two reads. A run can come back with a standing the person had at no moment
  of it (`Directory.StandingNobodyHad`). It is the standing of one of the two moments exactly when the person
  still holds the role, active, at the second, or the role's permissions are the same at both
  (`Directory.OneMomentExactly`).
- The retry of a console key's registration is one, and it can fail on an index all the same: by losing twice,
  once over the person and then over the key, or on its own where the person's synthetic address belongs to
  somebody who is not linked. A registration is bound to settle exactly when, as it begins, the person is linked
  or the key is already somebody's (`KeyRace.SettlesExactly`).
- The lease of a message sent back for retry is reckoned before the update that carries it is awaited. It can
  be past when it lands (`DlrRace.LeaseCanBePast`); over all runs it is ahead exactly when no update waits for
  its row as long as the shortest backoff, 5 seconds (`DlrRace.AheadExactly`).
- `pack` refuses a value holding the separator so that none splits on the way out; a tab gets past it and
  splits (`Packing.TabSplits`). What was packed comes back exactly when no value holds white space
  (`Packing.UnpackUndoesPack`).
- One address's share of the sign-in bucket is its own burst and rate, and whatever it was still waiting for
  as the span began (`LoginRace.OneAddressIsBounded`, `LoginRace.StraddlingCounts`); the burst and rate alone,
  exactly when no sign-in waits between its two draws (`LoginRace.PlainBoundExactly`).
- Publishing the key set before the signing key is safe when publishes do not overlap. Two call sites can
  publish at once, and then every key set must list every kid in play (`Keyring.OverlapIsSafeExactly`).

## Model

| member | source | states |
|---|---|---|
| `NonceRace.SingleAcceptance` | backends/crates/sms-api/src/envelope.rs:262-323 | Over every interleaving of calls, failures and sweeps, a later `true` for a nonce comes at or after the expiry of the row every earlier `true` inserted; the log that says so is exactly the calls told `true`. |
| `NonceRace.ExactlyOneWinner` | backends/crates/sms-api/src/envelope.rs:262-323 | Any number of calls racing on a nonce with no live row, none failing and no winning row expiring meanwhile: when all have returned, exactly one was told `true`, every other `false`. |
| `NonceRace.EveryStatementAdvances` | backends/crates/sms-api/src/envelope.rs:264-304 | Nobody waits for anybody: every statement takes a call nearer its answer, five at most. |
| `NonceRace.DeleteByNonceAcceptsTwice` | backends/crates/sms-api/src/envelope.rs:291-303 | With the stale row deleted by nonce instead of by id, an interleaving accepts the nonce twice while the first row lives. |
| `NonceStore.PgNonceStore.InsertOnceMore` | backends/crates/sms-api/src/envelope.rs:306-323 | The insert under interference: losing it to the index is an answer, an error may have gone in; unless it failed the nonce is held, and no live row went. |
| `NonceStore.PgNonceStore.FindLive` | backends/crates/sms-api/src/envelope.rs:275-293 | Judged live means a row of the nonce lives; judged stale means that row is gone or expired from then on, and no other row of the nonce is from before the read. |
| `NonceStore.PgNonceStore.DeleteStale` | backends/crates/sms-api/src/envelope.rs:294-303 | The delete by id removes that row and no live one, whatever happened since the row was judged; one that fails may have landed. |
| `NonceStore.PgNonceStore.RecordIfUnseen` | backends/crates/sms-api/src/envelope.rs:264-304 | The whole call with others acting before each statement: it fails if and only if a statement does; `true` means its own row went in and no earlier row lives; `false` means a row of the nonce lives as it returns or somebody else recorded the nonce while it ran; no live row goes. |
| `NonceStore.PgNonceStore.RecordAlone` | backends/crates/sms-api/src/envelope.rs:264-304 | Run alone it accepts exactly the nonces with no live row, replaces a stale row and changes nothing else; refusing changes nothing. |
| `CanonicalJson.CanonicalIsExact` | backends/crates/sms-api/src/audit_log.rs:155-179 | Two documents have the same canonical text exactly when they denote the same value, that is, differ at most in object key order. |
| `CanonicalJson.PrintIsPrefixFree` | backends/crates/sms-api/src/audit_log.rs:155-179 | A printed document is uniquely readable, whatever follows it. |
| `CanonicalJson.EscapesAreExact` | backends/crates/sms-api/src/audit_log.rs:155-179 | The escapes of a printed string, byte by byte: the quote, the backslash and the control bytes, and nothing else. |
| `CanonicalJson.SortKeysKeeps` | backends/crates/sms-api/src/audit_log.rs:158-178 | Sorting keys at every level keeps the meaning and gives a normal form. |
| `CanonicalJson.NormalIsUnique` | backends/crates/sms-api/src/audit_log.rs:158-178 | A meaning has one normal form. |
| `AuditRows.RowBytesAreExact` | backends/crates/sms-api/src/audit_log.rs:137-199 | The bytes fed to the row hash are equal exactly when the rows are the same up to JSON key order and below the microsecond. |
| `AuditRows.RowOnTheWire` | backends/crates/sms-api/src/audit_log.rs:181-199 | A sample row byte by byte: the order of the fields, big-endian length frames, presence bytes, canonical JSON, microseconds. |
| `AuditRows.FoldCommits` | backends/crates/sms-api/src/audit_log.rs:203-213 | Two row lists have equal folds exactly when they hold the same rows, in the same number and order. |
| `AuditRows.FoldOnTheWire` | backends/crates/sms-api/src/audit_log.rs:203-213 | No rows fold to the genesis value, and two rows to the digest of the digest so far and the next row's. |
| `AuditHasher.HashAuditRow` | backends/crates/sms-api/src/audit_log.rs:181-199 | The writers feeding an incremental hasher hash exactly the row's encoding. |
| `AuditHasher.FoldAuditRows` | backends/crates/sms-api/src/audit_log.rs:203-213 | The loop computes the fold. |
| `HashChain.HeadCommits` | backends/crates/sms-api/src/audit_log.rs:220-240 | In a linked chain the last hash determines every link; the 64-character back link that makes the framing unambiguous is itself derived along the chain. |
| `AuditChain.VerifyChainLinkage` | backends/crates/sms-api/src/audit_log.rs:276-317 | The verifier loop reports exactly the broken back links and the anchors that do not hash to their own value, and nothing exactly when the chain is well linked. |
| `AuditChain.NoBreaks` | backends/crates/sms-api/src/audit_log.rs:276-317 | No findings if and only if the chain is well linked and self-consistent. |
| `AuditChain.AnchorOnTheWire` | backends/crates/sms-api/src/audit_log.rs:220-240 | What is hashed for an anchor, byte by byte: the link back, the start with its presence byte, the end, the count, the range hash; the hash is its lower-case hexadecimal digest. |
| `AuditChain.NewestAnchorCommits` | backends/crates/sms-api/src/audit_log.rs:220-240 | Two break-free chains that end in one `chainHash` are the same, anchor by anchor. |
| `AuditChain.RemovalIsReported` | backends/crates/sms-api/src/audit_log.rs:276-317 | Taking out one anchor of a break-free chain is reported exactly when it is not the newest. |
| `AuditLog.LogCommits` | backends/crates/sms-api/src/audit_log.rs:327-337 | Two tables whose chains and contents check out, each period selected by its anchor's `(periodStart, periodEnd]`, and that end in one `chainHash`, hold the same rows in the same order, period by period. |
| `AuditLog.PeriodsCover` | backends/crates/sms-api/src/audit_log.rs:108-132 | Periods that begin where the one before ended select every row up to the newest anchor's end, each once and in order. |
| `AuditLog.WholeExactly` | backends/crates/sms-api/src/audit_log.rs:108-132 | That is the whole table exactly when nothing in it is later than that end. |
| `AuditLog.TableCommits` | backends/crates/sms-api/src/audit_log.rs:327-337 | The newest `chainHash` of contiguous periods commits to the table itself up to that anchor's end. |
| `AuditLog.AnchoringKeeps` | backends/crates/sms-worker/src/jobs/anchor_audit.rs:92-134 | Every anchor the job adds keeps the chain unbroken, the periods contiguous and their contents verified. |
| `AuditLog.AnchorIsDueExactly` | backends/crates/sms-worker/src/jobs/anchor_audit.rs:92-134 | No anchor if and only if the end is not later than the last one; one that is made begins there on the last hash, ends where the job says and counts its rows. |
| `AuditLog.HistoryVerifies` | backends/crates/sms-worker/src/jobs/anchor_audit.rs:92-134 | From an empty log, over every history of writes and job runs in which rows are in before their time is anchored: the chain and every period verify, the periods are contiguous up to the latest end the job ran for, and every anchor counts its rows. |
| `AuditLog.EveryRowIsCountedOnce` | backends/crates/sms-worker/src/jobs/anchor_audit.rs:92-134 | Over every such history the row counts of the anchors add up to the rows of the table up to that end. |
| `AuditLog.LaterRowsDoNotMatter` | backends/crates/sms-api/src/audit_log.rs:108-132 | Rows later than a period's end leave what it selects unchanged. |
| `LookupKeys.BudgetedKinds` | backends/crates/sms-api/src/delivery_status.rs:365-387 | The kinds the count filters on are exactly the kinds that claim. |
| `BudgetRace.NeverMoreThanTheBudget` | backends/crates/sms-api/src/delivery_status.rs:419-498 | Over every interleaving of lookups whose insert, count and settle are separate statements, any of which may fail, at most 60 rows of one caller stamped within any one hour are ever admitted. |
| `BudgetRace.AdmissionStaysBounded` | backends/crates/sms-api/src/delivery_status.rs:473-486 | Admitting after a count that includes one's own row keeps every hour within the budget. |
| `BudgetRace.EveryAnswerIsAccountedFor` | backends/crates/sms-api/src/delivery_status.rs:542-598 | A lookup that cannot be accounted for is not answered: over every interleaving each answer has a row of its own, settled `answered`, naming its caller and kind of key, admitted when it is budgeted. |
| `BudgetRace.WhatIsBudgeted` | backends/crates/sms-api/src/delivery_status.rs:365-387 | Over every run: a lookup by number of anybody, or by reference of a person, is answered from an admitted row only; one by message id, or by an app's own reference, never claims and is never counted or refused. |
| `BudgetRace.AnswersStayInBudget` | backends/crates/sms-api/src/delivery_status.rs:419-498 | Over every interleaving no caller is answered more than 60 lookups by number, or by reference as a person, whose rows fall in one hour. |
| `BudgetRace.UndisturbedLookup` | backends/crates/sms-api/src/delivery_status.rs:452-498 | A lookup by number that nobody disturbs is answered if and only if fewer than 60 of the caller's counted rows are of the hour before; refused, its row is marked and not counted. |
| `BudgetRace.EveryStatementAdvances` | backends/crates/sms-api/src/delivery_status.rs:452-498 | Nobody waits for anybody: three statements at most; one that is not budgeted is answered by its first. |
| `LookupLedger.Ledger.Lookup` | backends/crates/sms-api/src/delivery_status.rs:452-498 | One at a time, the answer is a plain sliding-window counter's; a refusal leaves the counter as it was. |
| `LookupLedger.Serve` | backends/crates/sms-api/src/delivery_status.rs:452-498 | A whole history is decided exactly as the sliding-window counter decides it, however many refusals came before. |
| `MessageStates.ReceiptEdgesAreExact` | backends/crates/sms-api/src/dlr.rs:265-333 | `next_state` proposes exactly the documented receipt edges, all legal, none from a terminal or pre-submit state. |
| `MessageStates.VerdictsLead` | backends/crates/sms-api/src/dlr.rs:282-333 | Which outcome leads where: never anywhere but where it says; a retryable failure is final exactly from `uncertain`; every verdict moves a submitted message, every one but a repeat an uncertain one, only expired and rejected an undelivered one, and none any other. |
| `MessageStates.EndsOnlyAsTold` | backends/crates/sms-api/src/dlr.rs:282-333 | After any list of receipts a message is where it was or where one of them said. |
| `MessageStates.DeliveredExactly` | backends/crates/sms-api/src/dlr.rs:282-333 | A submitted or uncertain message ends delivered if and only if some receipt says delivered with nothing before it but doubt and progress. |
| `MessageStates.ProgressIsInert` | backends/crates/sms-api/src/dlr.rs:282-333 | Deleting all in-flight and unknown outcomes from any list of receipts leaves the final state unchanged. |
| `MessageStates.RepeatsAreInert` | backends/crates/sms-api/src/dlr.rs:282-333 | Collapsing adjacent duplicates leaves the final state unchanged. |
| `MessageStates.AtMostTwoMoves` | backends/crates/sms-api/src/dlr.rs:282-333 | Without the worker, receipts move a message at most twice: a rank strictly decreases with every move. |
| `MessageStates.RetryBackoff` | backends/crates/sms-api/src/dlr.rs:23-45 | For any attempt count, positive or not, 5 seconds to 30 minutes. |
| `MessageStates.BackoffSchedule` | backends/crates/sms-api/src/dlr.rs:23-45 | 5 seconds up to the first attempt, then 30 seconds, 2 minutes, 10 minutes, and 30 minutes from the fifth on. |
| `MessageStates.BackoffNeverShrinks` | backends/crates/sms-api/src/dlr.rs:23-45 | More attempts never wait less. |
| `DlrRace.ReceiptsStayLegal` | backends/crates/sms-api/src/dlr.rs:91-247 | Over every interleaving with legal, version-bumping writers: each message's history is a path in the table, each write a receipt lands is a receipt edge from the row's actual state, and the illegal-transition error is never met. |
| `DlrRace.LandingsAreSaid` | backends/crates/sms-api/src/dlr.rs:91-247 | Over every interleaving a write lands only where its own update says, on its own message, with its one receipt recorded. |
| `DlrRace.FinalIsFinal` | backends/crates/sms-api/src/dlr.rs:255-281 | Over every run, whoever writes, a message in a final state stays in it. |
| `DlrRace.UndisturbedMoves` | backends/crates/sms-api/src/dlr.rs:91-247 | From any state, an update whose verdict leads somewhere and that nobody disturbs leaves one receipt and the row there, one version on, attempts kept, leased the backoff from the clock when sent back. |
| `DlrRace.UndisturbedRests` | backends/crates/sms-api/src/dlr.rs:91-247 | One that leads nowhere leaves its receipt and the row as it was. |
| `DlrRace.RetriesBackOff` | backends/crates/sms-api/src/dlr.rs:169-182 | Every landing in `undelivered` carries a lease 5 seconds to 30 minutes ahead of the clock as read for it, never less as attempts grow; at the landing it is at most 30 minutes ahead, and ahead at all exactly when the update landed within the backoff. |
| `DlrRace.LeaseCanBePast` | backends/crates/sms-api/src/dlr.rs:169-182 | For any wait and any number of tries, a run whose update lands that long after the clock was read, with the lease nearer by that wait, so already past once the wait is the backoff. |
| `DlrRace.AheadExactly` | backends/crates/sms-api/src/dlr.rs:169-182 | Over all runs in which updates wait for their rows `w` at most: every retry after `attempts` tries or more is leased ahead of its landing if and only if `w` is less than the backoff of `attempts`, and every retry whatever its tries if and only if `w` is less than 5 seconds. |
| `DlrRace.ExactlyOneReceipt` | backends/crates/sms-api/src/dlr.rs:135-182 | Every ingestion that matched and did not fail left exactly one receipt of what arrived, whether or not it moved the message. |
| `DlrIngest.Store.IngestOne` | backends/crates/sms-api/src/dlr.rs:91-247 | One update: no row of that provider and reference, nothing; a match, one receipt and the state it implies, leased from the clock as read once the receipt was in; it breaks if and only if a statement fails, and leaves what had committed. |
| `DlrIngest.Store.Ingest` | backends/crates/sms-api/src/dlr.rs:54-73 | A callback: every update is attempted whatever became of the ones before, applied in order to the row it names, each with its own clock, and leaves the receipts it wrote, in order. |
| `DlrIngest.CallbackArrives` | backends/crates/sms-api/src/dlr.rs:54-73 | Every message ends where the updates applied to it, in order, lead, whatever failed in between. |
| `DlrIngest.CallbackSays` | backends/crates/sms-api/src/dlr.rs:54-73 | After a callback every message is where it was or where an update applied to it said. |
| `DlrIngest.VersionCountsMoves` | backends/crates/sms-api/src/dlr.rs:54-73 | The version rises by the number of moves the applied updates make, and the attempts stay. |
| `DlrIngest.LeaseIsOfTheFailure` | backends/crates/sms-api/src/dlr.rs:169-182 | The lease after a callback is the one a retryable failure gave, the backoff from the clock read for it, whenever the message went back; otherwise it is as it was. |
| `DlrIngest.IngestedLeavesItsReceipt` | backends/crates/sms-api/src/dlr.rs:135-160 | Every update that was ingested left the receipt of what it said. |
| `DlrIngest.ReceiptsAreOfUpdates` | backends/crates/sms-api/src/dlr.rs:135-160 | Every receipt is of an update of the callback, for the message it named, in order. |
| `Keyring.KeySetFirstIsSafe` | backends/apps/sms-gateway/src/op.rs:32-76 | Publishes that do not overlap: a token minted in any state, the one between the two lock writes included, verifies in it exactly when each key set lists the kid signing before it and the kid after. |
| `Keyring.SignerFirstNeedsMore` | backends/apps/sms-gateway/src/op.rs:56-76 | Over every sequence of publishes in the reverse order, a token verifies in every state exactly when each new kid is listed by the key set published before its own and by its own. |
| `Keyring.OverlapIsSafeExactly` | backends/apps/sms-gateway/src/op.rs:32-129 | With overlapping publishes every interleaving is safe exactly when every key set lists the kid signing at the start and every kid being published. |
| `Keyring.OverlapCanBreak` | backends/apps/sms-gateway/src/op.rs:332-346 | Two overlapping publishes, each covering its own kid and the one before, can leave an unpublished signing kid. |
| `Keyring.OpKeyring.Publish` | backends/apps/sms-gateway/src/op.rs:64-76 | Key set, then signing key: a reader meets two new states and no others, and all states verify exactly when they did before and the new set lists the old kid and the new. |
| `KeyReload.SingleFlight` | backends/apps/sms-gateway/src/op_bearer.rs:141-173 | Over every interleaving at most one forced reload is in flight, and the lock is never held past the reload timeout and a stated lag before it, in noticing it and after it. |
| `KeyReload.ReloadsAreRateLimited` | backends/apps/sms-gateway/src/op_bearer.rs:141-173 | For every interval: reload starts are at least the interval apart, so at most floor(span / interval) + 1 begin in any span. |
| `KeyReload.QueuedCallersGetTheKey` | backends/apps/sms-gateway/src/op_bearer.rs:141-173 | Whoever queued behind a reload that brought the key in waits, goes away or comes back with it, in every run whose later reloads and refreshes all bring it. |
| `KeyReload.LoaderGetsItsKey` | backends/apps/sms-gateway/src/op_bearer.rs:141-173 | Over every run, a reload that came back publishes what it loaded: unless the periodic refresh publishes first, the caller that forced it returns with its key if and only if it was loaded. |
| `KeyReload.KnownIsPublished` | backends/apps/sms-gateway/src/op_bearer.rs:141-173 | Over every run the keys are those of the last reload that came back or refresh, or the first ones. |
| `KeyReload.KnownKeyDoesNotWait` | backends/apps/sms-gateway/src/op_bearer.rs:141-145 | A known key is found at the first look, whoever holds the lock. |
| `KeyReload.EveryStepAdvances` | backends/apps/sms-gateway/src/op_bearer.rs:141-173 | Nobody is stuck: each step takes a call nearer its answer unless another holds the lock or its reload is out, whose success or failure does. |
| `KeyReload.AnswersAreTrue` | backends/apps/sms-gateway/src/op_bearer.rs:141-173 | A call answers according to the keys published as it returns, or, where it gives up because a reload is too soon, as it looked under the lock at most a lag before, the same thing unless the periodic refresh published in between; it gives up on an unknown kid only after a forced reload began, within the interval of it where the interval outlasts a reload. |
| `TtlCaches.TtlCache.GetOrFetch` | backends/crates/sms-api/src/cache.rs:63-81 | A good entry needs no fetch; a fetched value is stored over what others wrote meanwhile and served until its time is up; a failed fetch changes nothing. |
| `CacheRace.ReturnedIsRecent` | backends/crates/sms-api/src/cache.rs:34-81 | Over every interleaving, what a call returns at t is what a whole load made of the source as it stood no earlier than t - (ttl - 1 tick) - fetch. |
| `CacheRace.GoneIsRefused` | backends/crates/sms-api/src/cache.rs:34-81 | Once the source goes on showing what no load accepts, every call returning more than that age later is refused. |
| `CacheRace.PresentIsFound` | backends/crates/sms-api/src/cache.rs:34-81 | Over every run in which the source shows throughout what every load accepts, every call that does not fail comes back with a value. |
| `CacheRace.PastIsTheRun` | backends/crates/sms-api/src/cache.rs:63-81 | The recorded past of the source is the states the run went through. |
| `CacheRace.BoundIsReached` | backends/crates/sms-api/src/cache.rs:34-81 | For every time to live and fetch time, a run returns a value dropped a full age ago. |
| `CacheRace.BoundIsExact` | backends/crates/sms-api/src/cache.rs:34-81 | All runs keep a bound on the age of what is returned if and only if it is at least that age. |
| `CacheRace.WithinOneTimeToLive` | backends/crates/sms-api/src/cache.rs:34-81 | All runs return only what the source held within one time to live exactly when a fetch takes no time, or one tick of a time to live that is not zero. |
| `Packing.UnpackUndoesPack` | backends/crates/sms-core/src/lib.rs:47-85 | What was packed comes back, in order and with repeats, exactly when no value holds white space. |
| `Packing.TabSplits` | backends/crates/sms-core/src/lib.rs:47-85 | One value with a tab in it is packed, and two come back. |
| `Directory.EffectiveScopesAreExact` | backends/crates/sms-api/src/signers.rs:366-375 | A token acts with exactly the scopes both rows list and its claim, if any, names, less the pairing scope in any spelling. |
| `Directory.PairInAnySpelling` | backends/crates/sms-api/src/console_keys.rs:37-41 | A scope names the pairing scope exactly when it spells it letter by letter in either case. |
| `Directory.NarrowedStanding` | backends/crates/sms-api/src/rbac.rs:25-62 | Per permission: the narrowed context grants exactly what the full one grants and both the row and the claim keep. |
| `Directory.BearerGrantsNoMore` | backends/crates/sms-api/src/signers.rs:214-236 | When a client's token stands, its key stands, under the same principal, subject, role and app; whatever the token is granted the key is granted; `console:pair` is never carried. |
| `Directory.PersonIsRecent` | backends/crates/sms-api/src/signers.rs:427-466 | Over every run a person's standing is their active row within ttl - 1 tick + fetch, a role not reserved, and that role's permissions as of then or later. |
| `Directory.OneMomentExactly` | backends/crates/sms-api/src/signers.rs:427-466 | For every pair of reads: the standing they make is that of one of the two moments exactly when the person still holds the role, active, at the second, or the role's permissions are the same at both. |
| `Directory.PersonIsOfOneMomentExactly` | backends/crates/sms-api/src/signers.rs:427-466 | The same for whatever any run comes back with, for two moments of the run in order, the first less than one time to live and one fetch before the answer, whose rows make up that standing. |
| `Directory.StandingNobodyHad` | backends/crates/sms-api/src/signers.rs:427-466 | For every fetch time, a run that comes back with a standing the person had at no moment of it. |
| `Directory.AppIsRecent` | backends/crates/sms-api/src/signers.rs:382-405 | Over every run an app's standing is the client, app and scopes of its own active, unretired row as it stood within ttl - 1 and one fetch. |
| `Directory.ActiveOwnerStands` | backends/crates/sms-api/src/signers.rs:382-466 | Over every run in which an owner may act throughout, by their rows, every lookup that does not fail comes back with a standing and the key stands. |
| `Directory.PersonMayExactly` | backends/crates/sms-api/src/rbac.rs:25-62 | Over every run a person is granted exactly the permissions the row of their role lists, as it stood within ttl - 1 and one fetch; the context's claims and names follow. |
| `Directory.AppMayExactly` | backends/crates/sms-api/src/rbac.rs:25-62 | Over every run an app's key is granted exactly the scopes its row lists, as it stood within that age; `optout:manage` gives an app nothing. |
| `Directory.BarredOwnerIsRefused` | backends/crates/sms-api/src/signers.rs:132-170 | An owner deactivated, retired or deleted at t0 is refused at every door by every lookup returning at t0 + ttl + fetch or later. |
| `Directory.NoTokenStandsAsOwner` | backends/crates/sms-api/src/signers.rs:264-285 | Over every run of the shared cache no person's token stands as owner, admin, system or app, though the signed door honours the very same cached standing. |
| `Directory.NoRequestIsTheSystem` | backends/crates/sms-api/src/auth.rs:278-345 | Over every run and either door, whoever is admitted is not the system, only an app acts as an app, and no token acts as owner or admin; whatever the cache holds, the rows read on the request hold a live key of the table its algorithm names or an active client of the kind the token needs, and the context's subject is theirs. |
| `Directory.AdmittedExactly` | backends/crates/sms-api/src/auth.rs:278-345 | A request is admitted if and only if the rows read on it name a live key or an active client of the right kind, no other credential is beside it, and the cache holds a standing that may come by that door. |
| `Directory.PrincipalsAreTold` | backends/crates/sms-api/src/signers.rs:78-84 | Two standings are charged to one principal if and only if they are the same client or the same person. |
| `KeyRace.KeysNeverChange` | backends/crates/sms-api/src/console_keys.rs:627-670 | Over every interleaving: at most one row per thumbprint, owner and expiry fixed, a revocation time never moved, a key not live never live again. |
| `KeyRace.OneRetryIsEnough` | backends/crates/sms-api/src/client_keys.rs:123-208 | A client's key, an operator's pairing and the key of a person linked when the call began never fail on the index; each step brings the call nearer its end, three at most; it returns its own owner's key. |
| `KeyRace.TakenAddressFails` | backends/crates/sms-api/src/console_keys.rs:355-398 | Alone, a first pairing of a person whose synthetic address belongs to somebody unlinked fails on the index at both attempts and changes nothing. |
| `KeyRace.UnlinkedCanLose` | backends/crates/sms-api/src/console_keys.rs:432-531 | Any first pairing under way, of a key nobody has and a person nobody linked, has a run in which it fails on an index. |
| `KeyRace.SettlesExactly` | backends/crates/sms-api/src/console_keys.rs:432-531 | A person's registration of any key, begun at any moment of any run, is bound to be settled by its one retry if and only if at that moment the person is linked or the key is already registered. |
| `KeyRace.AllReturnTheOneRow` | backends/crates/sms-api/src/client_keys.rs:111-208 | Any number of registrations of one new key for one live client create one row, none fails, all return it, each within three steps. |
| `KeyRace.OnlyLiveKeysAreReturned` | backends/crates/sms-api/src/console_keys.rs:323-346 | What a call returns is not revoked, and not expired when it was asked for. |
| `KeyRace.ConflictIsForGood` | backends/crates/sms-api/src/client_keys.rs:214-230 | A key refused once to an owner is refused to that owner for good: over every run no later registration of it for them returns it or inserts it. |
| `KeyRace.BarredGetNoKey` | backends/crates/sms-api/src/client_keys.rs:123-160 | Over every run, a call whose client is missing, inactive, retired or a pairing client with no operator, or whose linked person is missing, inactive or the owner, all the while, inserts nothing and gets no key; its next step gives the reason. |
| `KeyRace.PairingNeedsAnActivePerson` | backends/crates/sms-api/src/console_keys.rs:548-600 | An operator's pairing with somebody missing or inactive is refused, whatever follows. |
| `KeyRace.NewKeyIsRegistered` | backends/crates/sms-api/src/client_keys.rs:111-208 | A new key of somebody the rows do not refuse, undisturbed: two steps, its own row, a person's for 30 days, nothing else changed. |
| `KeyRace.FirstPairingEnrols` | backends/crates/sms-api/src/console_keys.rs:355-398 | A first pairing, undisturbed, creates the person, the link and the key together. |
| `KeyRace.KnownKeyIsReturned` | backends/crates/sms-api/src/console_keys.rs:323-346 | A key already the caller's and still good is answered with its own row at once. |
| `KeyRace.RevokedIsForGood` | backends/crates/sms-api/src/client_keys.rs:234-277 | Over every run after a revocation the key is revoked, at the first time anybody revoked it. |
| `KeyRace.SplitRevocationMovesTheTime` | backends/crates/sms-api/src/client_keys.rs:234-277 | With the read and the write of a revocation apart, from any state with a live key, a run moves the first revocation time. |
| `KeyRace.WholeIsTheProtocol` | backends/crates/sms-api/src/client_keys.rs:234-277 | Without those two statements the split protocol runs exactly as the protocol itself, where the time never moves. |
| `ClientKeys.ClientKeyStore.Register` | backends/crates/sms-api/src/client_keys.rs:111-208 | The retry loop under interference: never a unique violation; a key is given only while the client was live and might have it, and it is this client's unrevoked row for this thumbprint; every refusal is for the reason the rows give as it returns. |
| `ClientKeys.ClientKeyStore.Revoke` | backends/crates/sms-api/src/client_keys.rs:234-277 | Stamps the row once, at the first time, and touches no other. |
| `Migrations.EachHalfOnce` | backends/apps/sms-migrate/src/main.rs:119-144 | No half of a migration is applied twice. |
| `Migrations.EveryMigrationIsWhole` | backends/apps/sms-migrate/src/main.rs:119-144 | Each migration is in whole at its place: its first half, if it has one, right before its main half, in the order of the list with nothing between. |
| `Migrations.Database.ApplyOne` | backends/apps/sms-migrate/src/main.rs:119-144 | One transaction: both halves and the bookkeeping row, or nothing; applied if and only if no statement failed. |
| `Migrations.Database.RunMigrations` | backends/apps/sms-migrate/src/main.rs:79-148 | However it ends, bookkeeping and schema agree and stand at a prefix of the list; it succeeds if and only if no statement failed, and then at all of it. |
| `MigratorRace.AlwaysAPrefix` | backends/apps/sms-migrate/src/main.rs:41-148 | From an empty database, over every run of concurrent migrators, of this release or older ones, crashing anywhere: recorded equals applied equals a prefix of the list; success leaves all a release knows applied. |
| `MigratorRace.NothingIsUndone` | backends/apps/sms-migrate/src/main.rs:79-148 | What is recorded at any moment is recorded ever after. |
| `MigratorRace.EveryStepAdvances` | backends/apps/sms-migrate/src/main.rs:41-148 | In every state of every run a step of a migrator that holds the lock, or finds it free, takes it nearer its success, and none of its own steps fails. |
| `EmailKeys.Truncate` | backends/apps/sms-gateway/src/login.rs:123-133 | The loop keeps the longest run of whole characters that fits 254 bytes. |
| `EmailKeys.KeyOf` | backends/apps/sms-gateway/src/login.rs:123-133 | The key of an address is that prefix of it, trimmed and lowercased. |
| `EmailKeys.KeysAreAddresses` | backends/apps/sms-gateway/src/login.rs:123-133 | Spaces around an address and what lowercasing removes do not matter; up to 254 bytes, different addresses have different keys. |
| `LoginLimiter.Limiter.Admit` | backends/apps/sms-gateway/src/login.rs:90-111 | The loop over the two buckets: let in if and only if both hold a token and neither call to the store failed; a throttled address leaves the shared bucket's level alone, and every other bucket is untouched. |
| `LoginRace.AdmitIsARun` | backends/apps/sms-gateway/src/login.rs:90-111 | A sign-in run through with nothing in between is `admit`. |
| `LoginRace.OneAddressIsBounded` | backends/apps/sms-gateway/src/login.rs:84-111 | Over every interleaving of sign-ins whose two draws are separate, one normalised address takes in any span at most burst + rate * span shared tokens, and the ones it was waiting for as the span began. |
| `LoginRace.EverybodyIsBounded` | backends/apps/sms-gateway/src/login.rs:84-111 | Over every interleaving and any span, all addresses together are let in no more than the shared bucket's burst and rate over the span. |
| `LoginRace.WaitsWidenTheSpan` | backends/apps/sms-gateway/src/login.rs:84-111 | Where no sign-in waits longer than w between its draws, at most burst + rate * (span + w). |
| `LoginRace.StraddlingCounts` | backends/apps/sms-gateway/src/login.rs:84-111 | A run in which the ones that were waiting take the address over burst + rate * span. |
| `LoginRace.PlainBoundExactly` | backends/apps/sms-gateway/src/login.rs:84-111 | Runs whose sign-ins wait at most w between their draws all keep burst + rate * span alone if and only if w is zero. |
| `LoginRace.OthersKeepTheirBucket` | backends/apps/sms-gateway/src/login.rs:84-133 | Over every interleaving no other address's own bucket changes. |
| `TokenLimiter.BucketsAreShapes` | backends/apps/sms-gateway/src/token_rate_limit.rs:106-120 | Two requests share a bucket exactly when they are of the same shape with the same client id or, by digest, the same code. |
| `TokenLimiter.TokenRateLimit.Enforce` | backends/apps/sms-gateway/src/token_rate_limit.rs:177-198 | Admits exactly when the request's own bucket holds a token, which it then holds one less of; every other bucket is as it was; a request the store cannot answer for is refused and takes nothing. |
| `TokenLimiter.FirstRedemptionsAreAdmitted` | backends/apps/sms-gateway/src/token_rate_limit.rs:59-120 | After any history the first `burst` redemptions of a code are admitted, whatever client ids, other codes, missing or repeated codes came before. |
| `LookupPlans.AcceptedQueriesAreBounded` | backends/crates/sms-api/src/delivery_status.rs:133-226 | Every accepted query: an app key is held to its app, a reference to one app, a number to unpurged rows of the last 90 days, all but an id to a window of at most 90 days, the limit to 1-50. |
| `LookupPlans.OnlyBadQueriesAreRefused` | backends/crates/sms-api/src/delivery_status.rs:133-226 | A query is planned if and only if it names one key, asks within its scope, is well formed and keeps its window. |
| `LookupPlans.PlanIsTheQuery` | backends/crates/sms-api/src/delivery_status.rs:133-298 | The plan of an accepted query matches exactly the rows its own fields ask for: the id, the reference, the number by its hash and unpurged, the app, the window or its defaults; its limit is the query's, or 10. |
| `DeliveryAnswers.Find` | backends/crates/sms-api/src/delivery_status.rs:562-570 | The read: as many of the newest matching rows as asked for, newest first. |
| `DeliveryAnswers.NewestReceipts` | backends/crates/sms-api/src/delivery_status.rs:501-525 | For every message asked about, its newest receipt, or none exactly when it has none. |
| `DeliveryAnswers.Lookup` | backends/crates/sms-api/src/delivery_status.rs:542-598 | The answer is the newest `limit` matches, each with its newest receipt, and `truncated` exactly when there are more. |
| `DeliveryAnswers.AnswersTheQuery` | backends/crates/sms-api/src/delivery_status.rs:542-598 | From the query to the answer: every row answered is asked for and as the database has it, no more than asked; one asked for is missing only from an answer marked truncated, and nothing answered is older. |
| `DeliveryAnswers.AppSeesOnlyItsOwn` | backends/crates/sms-api/src/delivery_status.rs:272-298 | Two databases that differ only in other apps' rows and receipts have exactly the same right answers for an app key, and every one shows its own app's messages only. |
| `DeliveryAnswers.NumbersFindNoPurgedHistory` | backends/crates/sms-api/src/delivery_status.rs:272-298 | Whatever a lookup by number answers is unpurged and created within 90 days. |
| `Base64.DecodeIsExact` | backends/crates/sms-api/src/envelope.rs:190-219 | A text decodes to given bytes exactly when it is their encoding (section 4 of RFC 4648, strict padding). |
| `Pem.ReadUndoesWrite` | backends/crates/sms-api/src/envelope.rs:188-219 | Every 32-byte seed written as PEM reads back. |
| `Pem.OnlySeedsAreRead` | backends/crates/sms-api/src/envelope.rs:199-219 | A text gives a seed if and only if its body encodes the fixed 16 bytes and that seed of 32; it is not PEM if and only if its body is missing or encodes nothing. |
| `Pem.LayoutDoesNotMatter` | backends/crates/sms-api/src/envelope.rs:199-219 | CRLF or LF, a last line that does not end, blanks at line edges and any lines before the BEGIN marker change nothing, whether the result is a key or a refusal. |
| `Pem.AnyLayoutReadsBack` | backends/crates/sms-api/src/envelope.rs:199-219 | With the base64 broken over any number of lines, the END line ended or not, and after its end any text, the seed still reads back. |

## Left out

- Cryptography (SHA-256, HMAC, Ed25519, ECDSA, RSA, COSE): functions given from outside, with the hypotheses above.
- `NonceRace.ExactlyOneWinner`: a race in which one of the racers' own statements fails is not covered; a failed caller is told an error and may or may not have recorded the nonce.
- `KeyRace.AllReturnTheOneRow`: a race in which one of the registrations meets a database failure, a serialization failure included, is not covered; that caller is told an error.
- `CacheRace.ReturnedIsRecent`: runs in which a fetch that lands takes longer than the stated bound are not covered; the code sets no bound of its own.
- `KeyReload.SingleFlight`: how late the code under the lock runs on, and how late a passed deadline is noticed, is bounded by a stated lag; the code sets no bound of its own beyond the reload timeout.
- `LookupPlans.OnlyBadQueriesAreRefused`: parsing a phone number is a given function, and arithmetic on dates does not overflow.
- `LoginRace.OneAddressIsBounded`: token counts are reals and the store's sweeping of idle buckets is not modelled; Unicode lowercasing is a given function.
- `TokenLimiter.FirstRedemptionsAreAdmitted`: form decoding is given, and no other code of the history may share the code's digest.
- `MigratorRace.AlwaysAPrefix`: releases only append to the list; a release that inserts a migration in the middle is not covered.
- The bearer token's own checks (issuer, audience, expiry, `kid`), the proof of possession and the parsing of public keys: single-branch decisions around the modelled core.
- Deletion of accounts and keys by operators, retention purges other than their effect on lookups, and the rotation of stored keys.
- `path_matches` and the thin gates (HMAC, key pair, owner grant, pair scope, consent): one reading settles them.
- The ORM, HTTP routing, OpenID handlers, the routing engine, health, metrics, backup, demo data and the documentation site.
- Log lines, redaction and error wording.
