# Verification of the EVE email-verification engine

A Dafny model of the parts of the engine whose correctness is not visible in one function:
the bounded edit distance behind domain suggestions, the token buckets and the rate limiter,
the catch-all lock protocol, the bulk pipeline with its row accounting, the chain from an SMTP
reply to a verdict, the rotating egress IP pool, the deferred re-probe queue, the spilling CSV
writer and the calendar buckets of the charts. `dafny verify dfyconfig.toml` checks all of it.

Code that updates state is modelled by classes and methods with loops (`InMemoryKV`, `Service`,
`Job`, `Verdict`, `EgressPool`, `ReprobeStore`, `AddressStore`, `Writer`); each method is proved
against a function of the old state, and the theorems are about that function over whole runs.
Coroutines switch only at an `await`, so a concurrent run is a sequence of the uninterrupted
segments between awaits, in any order.

| file | contents |
|---|---|
| `Common.dfy`, `Verdicts.dfy` | options, ASCII string operations; statuses, probe results, verdict data |
| `EditDistance.dfy`, `Typo.dfy` | optimal string alignment distance three ways; the pruned domain search |
| `TokenBucket.dfy`, `RateLimiter.dfy` | both buckets over whole call histories; the bounded retry loop |
| `CatchAll.dfy` | the double-checked per-domain lock as a protocol over all interleavings |
| `VerifyStage.dfy`, `Pipeline.dfy` | the chunked verify stage under any schedule; both passes and the job's accounting |
| `Normalize.dfy`, `Mailboxes.dfy`, `Addresses.dfy` | display address, dedupe key; which spellings share a key; the batch upsert |
| `Engine.dfy`, `Evidence.dfy`, `Outcomes.dfy` | synchronous and bulk validation; what a VALID verdict rests on; every verdict over what the layers and the server said |
| `IpPool.dfy`, `IpPoolRuns.dfy` | rotation, cooldowns, daily caps; promises over runs |
| `Reprobe.dfy`, `ReprobeRuns.dfy` | the durable queue and its sweep; leases, crashes and late workers over runs |
| `Calendar.dfy`, `Series.dfy` | Gregorian dates; bucket windows that tile the calendar |
| `CsvWriter.dfy` | the writer that spills to disk |

## What the proofs found

- The egress pool finds an address by its first entry, so a list naming one address twice can
  hand out an address that is cooling. The promise holds exactly when no address is listed
  twice (`SafeExactlyWhenDistinct`).
- A re-probe worker that answers after its lease can schedule a retry inside the lease of the
  worker that took over. Without an assumption on workers, claims are exclusive exactly when
  every retry delay after the first is at least the lease (`ExclusiveExactlyWhenSpaced`); with
  workers that finish in time they always are.
- A retry drops its row before it writes the address, so a raise or crash between the two loses
  the answer (`AnswerCanBeLost`). With workers that finish in time, a removed row's verdict is in
  the address table if and only if no claim on it ended between its drop and its update
  (`RemovedVerdictIsStored`); with late workers, a retry's verdict is missing exactly when every
  claim that dropped the row ended there (`MissingExactlyWhenAllLost`).
- A domain counts as not catch-all after any reply to the made-up recipient but 250 and 251, a
  deferral included, so a catch-all domain that greylists first yields VALID for any local part
  from then on (`ValidAfterDeferredCheck`). The recorded answer rests on one reply only, and is a
  refusal exactly when that reply is (`AnswerRestsOnOneReply`).
- A local part that is only a tag counts as nothing: `+x@gmail.com` is keyed `@gmail.com`, and a
  row with that text, which is no address, is taken for the same addressee
  (`TagAloneIsKeyedLikeNoAddress`). Cells are keyed alike exactly as `SameAddressee` says.
- The re-probe queue reads the reply's text, not the outcome: a retry that is answered for good
  with a text saying `greylisted` is queued again (`RetryReadsTheText`).
- `upsert_many` documents "last write for an address wins". Within one batch that is not so: a
  repeated address violates the primary key and the whole batch rolls back (`UpsertMany`). The
  pipeline never builds such a batch (`ChunkWriteIsAccepted`, `RunJob`).
- `acquire` promises to block until a token is available but returns without one after 10,000
  refusals. Undisturbed and with honoured sleeps, it holds a token on return if and only if the
  capacity is at least one token (`Acquire`); a smaller bucket refuses all attempts.
- Two history keys that spell one day differently make a chart lose the first one's counts
  (`TwoSpellingsLoseCounts`); the totals are exact if and only if no two keys name one day
  (`NothingLostExactlyWhenNamedOnce`). The application's own history is safe: `by_day` groups by
  one `%Y-%m-%d` column, and keys of one formatter never repeat a day (`OneSpellingIsSafe`).
- A CSV whose upload fails after it spilled loses its text: the temporary file is discarded and
  the buffer is empty (`Writer.Close`). The spill threshold is documented in bytes but compared
  with the buffer's length in characters.

## Assumptions

- `Normalize.Honest` is all that is assumed of the address parser: its parts are well formed
  (no blanks, no `@` in the domain), and parsing a normalised address again returns its parts.
- `Engine.Resolves`: a resolver that reports mail service names a host, which `ResolveUncached`
  guarantees.
- `Pipeline.Canonical`: a verdict is stored under the canonical address of what was verified,
  which the bulk form of the engine guarantees (`VerifiedIsCanonical`).
- Both passes of a bulk run read the same rows, and the job is a fresh one with zero counts.
- Each database transaction of the address table and of the re-probe table is one atomic step.
- Rates, times and scores are reals or integers without rounding; letters are ASCII.
- Clock readings, SMTP replies, probe outcomes, the domain lists and the CSV rendering are
  parameters, so every statement holds for all of them.

## Model

| member | source | states |
|---|---|---|
| Common.ContainsIsSubstring | src/eve/smtp_infra/greylist.py:18 | the substring test holds exactly when the needle stands somewhere in the string |
| Common.StripLaw | src/eve/layers/normalize.py:43-44 | stripping takes blanks, and blanks only, off both ends and leaves none there |
| Common.CaseMoves | src/eve/layers/normalize.py:44-51 | lower-casing moves capitals only, each to the letter that upper-cases back to it |
| Common.TitleAt | src/eve/jobs/pipeline.py:340 | title-casing raises a letter exactly where none stands before it and lowers every other |
| EditDistance.DistanceIsCheapestScript | src/eve/layers/typo.py:59-99 | the distance is the cost of some edit script (keep, insert, delete, replace, adjacent swap) that turns one string into the other, and no such script is cheaper |
| EditDistance.NoScriptIsCheaper | src/eve/layers/typo.py:80-93 | for every pair of prefixes, any script between them costs at least the table cell |
| EditDistance.SomeScriptAttains | src/eve/layers/typo.py:80-93 | for every pair of prefixes some script costs exactly the table cell |
| EditDistance.AtLeastLengthDifference | src/eve/layers/typo.py:72-74 | the distance is at least the length difference, so the length prune drops nothing within the cutoff |
| EditDistance.ZeroDistance | src/eve/layers/typo.py:148-151 | distance zero means equal strings |
| EditDistance.Symmetric | src/eve/layers/typo.py:59-99 | the distance does not depend on the order of its arguments |
| EditDistance.ExceedingRowIsFinal | src/eve/layers/typo.py:94-97 | one row entirely above the limit puts the final distance above it, although a transposition reads two rows back |
| EditDistance.RowMinimum | src/eve/layers/typo.py:94 | returns an entry of the row that no entry undercuts |
| EditDistance.FillRow | src/eve/layers/typo.py:79-93 | from the two previous table rows, fills the next one exactly |
| EditDistance.DamerauLevenshtein | src/eve/layers/typo.py:59-99 | the rolling-row loop returns the true distance when it is within the cutoff or there is none, and a value above the cutoff otherwise |
| Typo.ExhaustiveFindsWinner | src/eve/layers/typo.py:137-151 | exhaustive search returns the first listed domain of least distance among those within their own limit, and nothing exactly when there is none |
| Typo.OneEditCannotBeBeaten | src/eve/layers/typo.py:148-151 | once the best is one edit away, the rest of the list cannot change the answer |
| Typo.Nearest | src/eve/layers/typo.py:137-151 | length pruning, cutoff distances and the early break return what the exhaustive search returns |
| Typo.Suggest | src/eve/layers/typo.py:107-155 | nothing for an undotted or listed domain; else a listed TLD correction if there is one, else the first listed domain of least distance among those within one edit (up to eight characters) or two (beyond), else the corrected TLD if the table has one |
| Typo.SuggestDomain | src/eve/layers/typo.py:102-104 | the same for the domain in lower case, without outer blanks and trailing dots |
| Typo.SuggestedIsRight | src/eve/layers/typo.py:107-155 | the lookup's specification means the right suggestion, spelled out over distances and the list |
| Typo.SuggestionIsAChange | src/eve/layers/typo.py:102-155 | a suggestion differs from the domain and is a known domain within its own limit or the same name under a corrected TLD |
| TokenBucket.InMemoryKV.IncrFloatWindow | src/eve/kv.py:79-92 | one bucket step: refill, cap, consume or wait; no other key changes |
| TokenBucket.LevelIsLeastHeadroom | src/eve/kv.py:79-92 | after any call history the level is the least, over all earlier starting points, of capacity plus refill minus grants since then |
| TokenBucket.RefusedExactlyWhenOverdrawn | src/eve/kv.py:79-92 | a call is refused if and only if some earlier call leaves no room for one more token |
| TokenBucket.SmallBucketStarves | src/eve/kv.py:86-92 | a capacity below one token grants nothing, ever |
| TokenBucket.GrantsNeverExceedBudget | src/eve/kv.py:79-92 | grants in any interval never exceed capacity plus refill times its length |
| TokenBucket.BucketStaysInRange | src/eve/kv.py:79-92 | over any monotone history the stored tokens stay between zero and capacity and carry the last call's time |
| TokenBucket.WaitIsLeast | src/eve/kv.py:89-92 | a lone retry after some idle time is granted if and only if the idle time is at least the wait returned |
| TokenBucket.WaitIsAtMostOneToken | src/eve/kv.py:89-92 | no wait exceeds the time one token takes to refill |
| TokenBucket.RedisKV.IncrFloatWindow | src/eve/kv.py:104-134 | one evaluation of the server-side script, including expiry and a clock that steps back |
| TokenBucket.ForgottenMeansFull | src/eve/kv.py:130-132 | when an idle key may expire its bucket had already refilled to capacity |
| TokenBucket.ExpiryIsUnobservable | src/eve/kv.py:104-134 | over any monotone history the script gives every call the answer of the in-process bucket, whether or not idle keys are forgotten |
| TokenBucket.StepBackChangesNothing | src/eve/kv.py:118-127 | a server clock that steps back neither refills nor drains the bucket |
| RateLimiter.PerMxRateLimiter.constructor | src/eve/smtp_infra/rate_limiter.py:16-19 | the rate as given but at least one token in ten seconds, the default capacity the rate but at least one token |
| RateLimiter.PerMxRateLimiter.Acquire | src/eve/smtp_infra/rate_limiter.py:21-30 | every call but the last was refused and only this host's bucket changes; it returns empty-handed only after all attempts, always so below one token of capacity; undisturbed with honoured sleeps it holds a token if and only if the capacity is at least one, after at most three calls |
| RateLimiter.ThreeAttemptsSuffice | src/eve/smtp_infra/rate_limiter.py:21-30 | an undisturbed caller is not refused three times although sleeps are cut to five seconds |
| RateLimiter.TwoAttemptsDoNot | src/eve/smtp_infra/rate_limiter.py:21-30 | the bound is tight: an empty bucket at the slowest rate refuses twice |
| RateLimiter.SmallBucketRefusesAll | src/eve/smtp_infra/rate_limiter.py:24-30 | with a capacity below one token every attempt is refused, whatever the bucket holds and however long the sleeps |
| RateLimiter.BucketPerHost | src/eve/smtp_infra/rate_limiter.py:23 | hosts share a bucket exactly when their names differ in case only |
| CatchAll.Service.Begin | src/eve/smtp_infra/service.py:115 | a call arrives; nothing else changes |
| CatchAll.Service.LookUp | src/eve/smtp_infra/service.py:116-117 | a known answer is returned without the lock, otherwise the call asks for it |
| CatchAll.Service.FetchLock | src/eve/smtp_infra/service.py:109-113 | fetches the domain's lock object, creating it only when the table has none |
| CatchAll.Service.EnterLock | src/eve/smtp_infra/service.py:119-123 | entering the lock re-checks the cache and either returns or starts the probe |
| CatchAll.Service.Record | src/eve/smtp_infra/service.py:123-126 | the domain is recorded as catch-all exactly for 250 and 251, that is the call's answer, and the lock is released |
| CatchAll.Service.Abandon | src/eve/smtp_infra/service.py:118-123 | a raising call releases the lock it holds and records nothing |
| CatchAll.SegmentKeepsInv | src/eve/smtp_infra/service.py:109-126 | every segment keeps the protocol's invariant on locks, holders, cache and answers |
| CatchAll.OneLockPerDomain | src/eve/smtp_infra/service.py:109-113 | in every run a domain has the same lock at all times |
| CatchAll.OneProbeAtATime | src/eve/smtp_infra/service.py:119-123 | in every run at most one call is inside a domain's catch-all RCPT |
| CatchAll.OneAnswerRecorded | src/eve/smtp_infra/service.py:115-126 | in every run, raising probes included, at most one answer is ever written for a domain |
| CatchAll.CallersAgree | src/eve/smtp_infra/service.py:115-126 | every call that returns for a domain, whenever it does, returns the same answer |
| CatchAll.AnswerRestsOnOneReply | src/eve/smtp_infra/service.py:119-126 | a domain's answer rests on the one reply its made-up recipient ever got in the run: positive exactly when that code is 250 or 251 |
| CatchAll.AnyOtherCodeRecordsNegative | src/eve/smtp_infra/service.py:123-126 | for every other code, deferrals and failed connections included, a run that records a negative answer from it |
| CatchAll.NeverStuck | src/eve/smtp_infra/service.py:115-126 | an unfinished call can always proceed, or the holder of its lock can |
| VerifyStage.Counts.Bump | src/eve/jobs/models.py:62-64 | exactly the named tally grows, by one |
| VerifyStage.EventKeepsInv | src/eve/jobs/pipeline.py:163-191 | opening a chunk, starting, finishing or failing an item keeps the stage's bookkeeping consistent |
| VerifyStage.EveryStepIsAccounted | src/eve/jobs/pipeline.py:163-191 | at every moment of every schedule: at most max(1, limit) probes run, no item is probed twice, and processed = verdicts = sum of the tallies <= total |
| VerifyStage.AnyScheduleEqualsInOrder | src/eve/jobs/pipeline.py:163-191 | any batch size, limit and completion order end with the verdicts and counts of verifying each unique address once, in order |
| VerifyStage.EventsUseUpWork | src/eve/jobs/pipeline.py:181-185 | every event leaves strictly less work, so the stage terminates |
| VerifyStage.NeverStalls | src/eve/jobs/pipeline.py:166-185 | until it is finished, the stage always has a next event unless a probe raised |
| VerifyStage.HandedOutInChunks | src/eve/jobs/pipeline.py:181-186 | items are handed out in chunks of the batch size, at least one, and nothing of a chunk before everything of the earlier chunks has landed |
| Normalize.NormalizeIsStable | src/eve/layers/normalize.py:41-62 | normalising a normalised address changes neither the address nor its key |
| Normalize.SameAddressSameKey | src/eve/layers/normalize.py:41-62 | addresses displayed alike have the same dedupe key |
| Normalize.WorkIsCanonical | src/eve/jobs/pipeline.py:87-94 | a work item's address is the one its verdict is stored under and maps to the item's own key |
| Normalize.DistinctKeysDistinctAddresses | src/eve/jobs/pipeline.py:87-94 | distinct dedupe keys mean distinct stored addresses, parsed or not |
| Mailboxes.SameKeyExactlyWhenSameMailbox | src/eve/layers/normalize.py:41-62 | two addresses share a key if and only if their canonical domains agree and so do the lower-cased locals, up to the first plus at a provider with tags and without dots at gmail |
| Mailboxes.KeyNamesMailbox | src/eve/layers/normalize.py:49-57 | the key is exactly what counts of the local part, at the canonical domain |
| Mailboxes.SameKeyExactlyWhenSameAddressee | src/eve/jobs/pipeline.py:87-94 | cells share a key if and only if they name the same mailbox, or neither parses and they differ in case and outer blanks only, or the one that does not parse spells the other's mailbox |
| Mailboxes.TagAloneIsKeyedLikeNoAddress | src/eve/layers/normalize.py:51-57 | a local part that is only a tag is keyed like the bare domain text, which is no address |
| Addresses.AddressStore.ClearKeys | src/eve/addresses.py:260-266 | the chunked deletes remove exactly the batch's keys of this workspace |
| Addresses.AddressStore.Insert | src/eve/addresses.py:267 | the insert succeeds exactly when the batch's addresses are distinct, and then adds exactly the batch |
| Addresses.AddressStore.UpsertMany | src/eve/addresses.py:246-267 | one map update by the batch, or nothing at all when an address repeats |
| Addresses.OtherWorkspacesUntouched | src/eve/addresses.py:254-267 | a write to one workspace leaves every other workspace's rows as they were |
| Addresses.BatchIsStored | src/eve/addresses.py:246-267 | every row of an accepted batch is stored as given |
| Addresses.OtherAddressesUntouched | src/eve/addresses.py:246-267 | an address the batch does not name keeps its presence and its row |
| Engine.ResolveUncached | src/eve/layers/dns_mx.py:72-100 | mail service is reported exactly for a usable MX or, without MX, an address record (section 5.1 of RFC 5321), and then with a host |
| Engine.Verdict.Score | src/eve/engine.py:176-185 | the loop-free decrements give the specified score of the current fields, and change no field |
| Engine.Verdict.Conclude | src/eve/engine.py:84-88 | assigns status, reason and score and no other field |
| Engine.Verdict.FinalizeWithoutSmtp | src/eve/engine.py:125-136 | a role mailbox ends RISKY and any other UNKNOWN with reason OK; no field but status, reason and score changes |
| Engine.Verdict.ApplyProbeOutcome | src/eve/engine.py:139-173 | the new verdict is the specified fold of the old one, and the unknown branch ran exactly for an inconclusive probe without a catch-all flag |
| Engine.Verdict.Classify | src/eve/engine.py:54-82 | normalised address, suggestion and the three flags are those of the layers, and everything else is still fresh |
| Engine.Verdict.RejectUnreachable | src/eve/engine.py:97-106 | a failed lookup ends UNKNOWN and a negative answer INVALID, for every error value; no other field changes |
| Engine.Verdict.UseProbe | src/eve/engine.py:111-122 | an answer is folded in, an inconclusive probe falls through to the aggregation |
| Engine.Verdict.Overwrite | src/eve/jobs/pipeline.py:302-311 | an answer overwrites the finalised verdict, greylisting only renames its reason |
| Engine.Validate | src/eve/engine.py:30-122 | synchronous validation on a fresh verdict; the unknown branch of the fold is not reached |
| Engine.VerifyEmail | src/eve/jobs/pipeline.py:283-311 | the bulk form on a fresh verdict; the unknown branch is not reached either |
| Engine.BothFormsAgree | src/eve/engine.py:90-173 | with DNS on, a normalised address and the same probe, both forms agree on every field but a sub-status that the bulk form uses to name greylisting |
| Engine.FoldForgets | src/eve/engine.py:139-162 | folding an answer does not depend on what had been concluded before |
| Engine.ValidScoresHighest | src/eve/engine.py:139-185 | in either form VALID scores 83 to 95 and everything else at most 70, and the verdict is stored under its canonical address |
| Outcomes.UnparsableIsInvalid | src/eve/engine.py:45-52 | in both forms an address that does not parse is INVALID with score zero and never probed |
| Outcomes.FlagsComeFromTheLists | src/eve/engine.py:54-88 | in both forms the flags, suggestion and addresses are what the lists and layers say of the parts, and the score is the conclusion's base less 10, 5 and 2 points for suggestion, role and free provider, not below zero |
| Outcomes.DisposableExactlyWhenListed | src/eve/engine.py:84-88 | DISPOSABLE if and only if the cleaned domain is listed, and then nothing is looked up or probed |
| Outcomes.ResolverDecides | src/eve/engine.py:90-106 | with DNS on, in both forms: INVALID for no mail service exactly when the resolver found none, UNKNOWN for a timeout exactly on a timeout, UNKNOWN for a DNS error exactly on a failure |
| Outcomes.ProbeDecides | src/eve/engine.py:110-162 | in both forms and for any prober: RISKY and flagged as catch-all exactly on the flag or outcome, INVALID exactly on a rejection, VALID exactly on a confirmation of a person's mailbox, RISKY also for a role mailbox not rejected |
| Evidence.TrustRequiresCatchAllCheck | src/eve/smtp_infra/providers.py:24-50 | a provider whose RCPT replies are trusted is always checked for catch-all |
| Evidence.ListedProvidersAreRecognised | src/eve/smtp_infra/providers.py:45-50 | the first listed provider that a host or the domain names, in any case, gives its row; replies are trusted exactly when none is named |
| Evidence.ReplyOutcome | src/eve/smtp_infra/service.py:128-143 | a reply confirms exactly on 250 or 251 from a trusted provider, and rejects exactly on a permanent code whose text does not look like anti-spam |
| Outcomes.ReplyMeaning | src/eve/smtp_infra/service.py:128-143 | every reply's outcome and detail: a deferral is a 4xx code, or another code neither accepting nor permanent whose text hints at it, and exactly those details speak of greylisting among the inconclusive ones |
| Evidence.OverwriteByService | src/eve/smtp_infra/service.py:69-80 | what the service's answer makes of an unprobed verdict, both directions for VALID |
| Evidence.ValidExactlyOnEvidence | src/eve/smtp_infra/service.py:69-143 | VALID if and only if the cheaper layers let the probe happen, the reply is 250 or 251, the provider is trusted, a negative catch-all answer is recorded for the domain, and the mailbox is not a role; the catch-all call is asked for only where a probe happens |
| Evidence.AcceptedMadeUpRecipientIsRisky | src/eve/smtp_infra/service.py:74-77 | once the made-up recipient got 250 or 251, every probed address of the domain is RISKY for catch-all under a strategy with the check |
| Outcomes.ServiceDecides | src/eve/smtp_infra/service.py:69-143 | the bulk verdict on a probed address over the catch-all answer and the reply, every status and both the catch-all and the greylisting reason if and only if |
| Evidence.TemporaryReplyNeverSettles | src/eve/smtp_infra/greylist.py:15-18 | a 4xx reply (section 4.2.1 of RFC 5321) to the recipient never ends in VALID or INVALID |
| Evidence.TemporaryReplyIsDeferred | src/eve/jobs/pipeline.py:306-310 | a consulted 4xx reply leaves RISKY or UNKNOWN with greylisting named, the mark a re-probe is scheduled on |
| Evidence.ValidAfterDeferredCheck | src/eve/smtp_infra/service.py:115-126 | a 4xx reply to the made-up recipient is enough: the run in which it is recorded as a negative answer, after which an accepted recipient of a trusted provider is VALID |
| Outcomes.RetryReadsTheText | src/eve/reprobe.py:38-45 | a retry counts as deferred exactly when the server deferred it, or answered it with a text that says greylisted |
| Outcomes.DeferredAgainIsRetried | src/eve/reprobe.py:287-317 | a retry that gets a 4xx reply again stays for the next attempt, due after that attempt's delay and with its code, and goes as exhausted when no attempt is left |
| Pipeline.Job.Split | src/eve/jobs/pipeline.py:127-145 | the first pass keeps each key's first work item in file order, counts as duplicates exactly the rows whose addressee an earlier row names, and collects exactly the domains of the work |
| Pipeline.Job.Land | src/eve/jobs/pipeline.py:177-179 | landing a verdict moves map, tally and progress together |
| Pipeline.Job.VerifyChunk | src/eve/jobs/pipeline.py:183-185 | one chunk under an arbitrary scheduler: all its items land, or some probe raised |
| Pipeline.Job.VerifyAll | src/eve/jobs/pipeline.py:163-191 | the stage ends like in-order verification, and fails exactly when a probe raised, with consistent progress either way; the landed chunks are in the address table as one map update |
| Pipeline.Job.Assemble | src/eve/jobs/pipeline.py:314-371 | the second pass writes every row to `cleaned` and to exactly one of the other files, in file order |
| Pipeline.Job.RunJob | src/eve/jobs/pipeline.py:97-211 | the job completes if and only if verifying raises for no unique address; duplicates are the rows whose addressee an earlier row names and rows = unique + duplicates; a completed job has processed all unique addresses, judged every row by its own probe and removed duplicates + invalid + disposable; completed or failed, progress is consistent and the address table has gained exactly the recorded addresses' rows |
| Pipeline.FirstsCoverRows | src/eve/jobs/pipeline.py:128-138 | the unique keys are exactly the keys of the rows |
| Pipeline.DuplicateExactlyWhenRepeated | src/eve/jobs/pipeline.py:131-138 | a row is a duplicate exactly when the mapped cell of an earlier row, without outer blanks, names the same addressee |
| Pipeline.TidyTouchesNamesOnly | src/eve/jobs/pipeline.py:336-340 | an output row keeps every column and cell of the source, but for the mapped name cells, which are stripped and title-cased |
| Pipeline.SortedPartition | src/eve/jobs/pipeline.py:367-371 | `valid` and `removed` are complementary subsequences of the file |
| Pipeline.WrittenLengths | src/eve/jobs/pipeline.py:331-371 | `cleaned` is row for row the input, and the other two files add up to it |
| Pipeline.ValidRowsHaveDistinctKeys | src/eve/jobs/pipeline.py:342-371 | `valid` holds only first occurrences, with pairwise distinct keys |
| Pipeline.DuplicateNamesFirst | src/eve/jobs/pipeline.py:342-344 | a duplicate row names the canonical address of its first occurrence, every other row names nothing |
| Pipeline.NoVerdictBranchIsUnreachable | src/eve/jobs/pipeline.py:346-365 | in a completed run no row takes the branch for a missing verdict |
| Pipeline.RemovedAccounting | src/eve/jobs/pipeline.py:342-371 | after any number of rows, removed = duplicates so far + first occurrences judged invalid or disposable |
| Pipeline.ChunkWriteIsAccepted | src/eve/jobs/pipeline.py:181-190 | for the run's own unique work, any stretch of it, in particular every chunk, gives records with distinct addresses once those without an address are left out, so the table accepts the batch |
| Pipeline.Job.RecordAddresses | src/eve/jobs/pipeline.py:189-238 | a chunk's verdicts reach the table as one upsert, accepted exactly when their addresses are distinct, and a refused one leaves the table as it was |
| Pipeline.AllAnsweredExactlyWhenNoProbeRaises | src/eve/jobs/pipeline.py:181-191 | every item of the stage is answered exactly when verifying raises for no row that is the first of its key |
| Pipeline.VerifiedIsCanonical | src/eve/addresses.py:70-84 | the bulk form's verdict on any address is stored under that address's canonical form |
| Pipeline.RetryIsStoredUnderItsAddress | src/eve/reprobe.py:325-339 | verifying a queued, lower-cased address again gives a verdict stored under that very address |
| Pipeline.StoredUnderWork | src/eve/addresses.py:70-84 | a verdict's row carries the address of its work item |
| IpPool.NewStates | src/eve/smtp_infra/ip_pool.py:46-47 | one state per non-blank address, in order, all distinct objects |
| IpPool.EgressPool.constructor | src/eve/smtp_infra/ip_pool.py:46-52 | a new pool over the listed addresses |
| IpPool.EgressPool.Scan | src/eve/smtp_infra/ip_pool.py:64-74 | the cursor ends just past the first eligible entry, or one full turn on |
| IpPool.EgressPool.TakeScanned | src/eve/smtp_infra/ip_pool.py:63-74 | the scan's entry is handed out and counted, and nothing else changes |
| IpPool.EgressPool.TakeNext | src/eve/smtp_infra/ip_pool.py:57-74 | acquire is the day roll followed by the scan, and an empty pool is left alone without a day roll |
| IpPool.EgressPool.ReportOutcome | src/eve/smtp_infra/ip_pool.py:76-90 | only the first entry with the address is penalised or rewarded |
| IpPool.EgressPool.CoolDown | src/eve/smtp_infra/ip_pool.py:92-97 | only the first entry with the address is cooled, a zero length meaning the default |
| IpPool.EgressPool.RollDay | src/eve/smtp_infra/ip_pool.py:99-106 | the daily tick happens exactly when the day differs |
| IpPool.EgressPool.PromoteWarmup | src/eve/smtp_infra/ip_pool.py:108-118 | every entry's count resets and the well-behaved ones advance |
| IpPoolRuns.NoneOnlyWhenNoneEligible | src/eve/smtp_infra/ip_pool.py:57-74 | nothing is returned if and only if no entry is eligible after the day roll, and what is returned is eligible |
| IpPoolRuns.HandsOutExactlyWhenPossible | src/eve/smtp_infra/ip_pool.py:57-74 | an entry is handed out if and only if one is past its cooldown and, counting the day roll, warmed up or below the cap, and only such a one |
| IpPoolRuns.NewPoolEntries | src/eve/smtp_infra/ip_pool.py:36-47 | a new pool holds exactly the addresses that are not blank, all fresh |
| IpPoolRuns.ReportsMoveReputation | src/eve/smtp_infra/ip_pool.py:76-90 | in any run a block costs half a point, a deferral a twentieth, a success earns a hundredth, within 0 and 1, and nothing else moves a reputation |
| IpPoolRuns.StagesMoveOnNewDays | src/eve/smtp_infra/ip_pool.py:99-118 | stages move by one, on the first acquire of a new day only, for entries with reputation of at least 0.8 only |
| IpPoolRuns.BlockedEntryStaysInStage | src/eve/smtp_infra/ip_pool.py:84-118 | a blocked entry leaves no warm-up stage, however many days pass, until thirty successes have been reported since |
| IpPoolRuns.LatestCooldownIsServed | src/eve/smtp_infra/ip_pool.py:68-69 | in any run and for any cooldown lengths, an entry is handed out only after its latest cooldown is over |
| IpPoolRuns.SafeExactlyWhenDistinct | src/eve/smtp_infra/ip_pool.py:54-97 | no run with default-length cooldowns hands out a cooling address, if and only if no address is listed twice |
| IpPoolRuns.DailyCapHolds | src/eve/smtp_infra/ip_pool.py:70-74 | over any run the daily count is the number of hand-outs on the pool's day, and at stage 0 it never exceeds the cap |
| IpPoolRuns.RotationIsFair | src/eve/smtp_infra/ip_pool.py:64-73 | between two hand-outs of one entry every other entry eligible throughout was handed out |
| Reprobe.ReprobeStore.Schedule | src/eve/reprobe.py:92-131 | replaces the row of the lower-cased address with the due time it returns, or writes nothing when attempts ran out |
| Reprobe.ScheduleFollowsDelays | src/eve/smtp_infra/greylist.py:31-34 | each attempt waits for its own delay, the last one standing for all later, and none is scheduled beyond the maximum or with a negative delay |
| Reprobe.ReprobeStore.SelectDue | src/eve/reprobe.py:163-175 | only due rows, each once and as stored, as many as the limit allows, none later than a due row left behind |
| Reprobe.ReprobeStore.ClaimDue | src/eve/reprobe.py:150-187 | returns such a selection and pushes exactly its rows to the end of the lease |
| Reprobe.ReprobeStore.Drop | src/eve/reprobe.py:189-198 | removes that one row |
| Reprobe.ReprobeStore.ReprobeOne | src/eve/reprobe.py:280-339 | a deferral reschedules with one more attempt or drops, an answer drops, and only after the drop is the address written; a raise before it leaves the row leased, one after it leaves neither row nor verdict, and those two are the failures |
| Reprobe.ReprobeStore.RunDueReprobes | src/eve/reprobe.py:256-317 | one sweep: a claimed row stays leased if verifying raised, moves on by one attempt if its verdict still says greylisted and an attempt is left, and is gone otherwise; no failure sinks another row; each tally is the number of claims with that fate, and the failures are the raises plus the drops whose address write failed |
| Reprobe.UpdateAddress | src/eve/reprobe.py:325-339 | the address row becomes the retry's verdict, still attributed to the job that first validated it |
| Reprobe.FoldKeepsAttribution | src/eve/reprobe.py:325-339 | the address keeps the job it is attributed to, takes the retry's where there is none, and no other address changes |
| Reprobe.SweepStoresVerdicts | src/eve/reprobe.py:256-339 | after a sweep the address table holds a key's new verdict exactly where its row was removed and the write went through, and is unchanged everywhere else |
| Reprobe.LeasedKeys | src/eve/reprobe.py:176-186 | leasing changes the due time of the claimed rows only and loses none |
| ReprobeRuns.AttemptsStayInRange | src/eve/reprobe.py:104-121 | in every run, late workers included, a stored attempt number lies in [0, max_attempts) |
| ReprobeRuns.RowsSurviveFailures | src/eve/reprobe.py:256-322 | only an answered or exhausted claim removes a row; a raise or crash while probing changes neither table, and one between drop and update changes neither any further |
| ReprobeRuns.RemovedVerdictIsStored | src/eve/reprobe.py:314-339 | with workers that finish inside their lease exactly one claim removes a row, and its verdict is in the address table if and only if no claim on the row ended between its drop and its update |
| ReprobeRuns.MissingExactlyWhenAllLost | src/eve/reprobe.py:314-339 | with arbitrary workers a removed row was removed by some claim, and no retry's verdict is in its address row exactly when every such claim ended between its drop and its update |
| ReprobeRuns.AnswerCanBeLost | src/eve/reprobe.py:274-320 | the run in which the answer to a retry ends in neither table |
| ReprobeRuns.RetryIsTwoSteps | src/eve/reprobe.py:314-320 | a settling retry of the store is the drop followed by the update or by its failure |
| ReprobeRuns.StoredRowsComeDue | src/eve/reprobe.py:155-169 | whatever happened to its last claim, a stored row can be claimed once its time has come |
| ReprobeRuns.DeferralsAreBounded | src/eve/reprobe.py:280-317 | with workers that finish inside their lease a key sees at most max_attempts deferrals, each using up one attempt |
| ReprobeRuns.TimelyClaimsAreExclusive | src/eve/reprobe.py:150-187 | with such workers no row is claimed under an unexpired lease |
| ReprobeRuns.ExclusiveExactlyWhenSpaced | src/eve/reprobe.py:104-187 | with arbitrary workers that holds if and only if every retry delay after the first is at least the lease |
| ReprobeRuns.LateAnswerOverlaps | src/eve/reprobe.py:150-187 | for any shorter delay, a run in which two leases on one row overlap |
| ReprobeRuns.BatchClaimIsSingleClaims | src/eve/reprobe.py:150-187 | one batched claim is a succession of single claims, each enabled when it happens |
| Series.MonthlyBounds | src/eve/web/series.py:56-61 | the buckets are the last `count` months in order, first to last day |
| Series.WeeklyBounds | src/eve/web/series.py:62-67 | the buckets are the last `count` weeks in order, each from a Monday to a Sunday |
| Series.BucketBounds | src/eve/web/series.py:53-72 | for every grain the buckets are consecutive calendar periods ending with today's |
| Series.PeriodsAreCalendar | src/eve/web/series.py:53-72 | two dates share a period exactly when they share year and month, the Monday of their week, or the day |
| Series.ShiftBack | src/eve/web/series.py:88-95 | the offset moves today back by whole windows of periods, for every grain |
| Series.Accumulate | src/eve/web/series.py:106-111 | a bucket's totals are, per verdict, the sum over the days in its range |
| Series.Build | src/eve/web/series.py:75-113 | the window of any offset: consecutive periods, each with exactly the counts of its days |
| Series.BucketsAreContiguous | src/eve/web/series.py:53-72 | each bucket of a window starts the day after the previous one ends and is not empty |
| Series.WindowsAreContiguous | src/eve/web/series.py:85-95 | a window ends the day before the next newer one starts |
| Series.EveryDayInOneBucket | src/eve/web/series.py:48-113 | each day lies in exactly one bucket of exactly one window, and offsets 0, 1, 2, ... take every day up to the end of the current period |
| Series.DayInOneBuiltBucket | src/eve/web/series.py:75-113 | over the buckets built at all offsets, each day lies between start and end of exactly one, and offsets 0, 1, 2, ... take exactly the days up to the newest bucket's end |
| Series.WindowTotalIsRangeTotal | src/eve/web/series.py:104-112 | a window's counts of a verdict add up to those of its whole date range |
| Series.NothingLostExactlyWhenNamedOnce | src/eve/web/series.py:97-112 | the series counts the whole history if and only if no two keys name one day |
| Series.TwoSpellingsLoseCounts | src/eve/web/series.py:97-102 | two spellings of 24 July 2026 with counts 2 and 3 give a chart of 3, not 5 |
| Series.OneSpellingIsSafe | src/eve/addresses.py:405-421 | distinct keys written by one formatter never name a day twice |
| Calendar.OrderIsOrdinal | src/eve/web/series.py:108 | comparing dates field by field is comparing day numbers, and a day number determines its date |
| Calendar.DayWithinMonth | src/eve/web/series.py:44-50 | a date lies from the first of its month to the day before the next month's first |
| Calendar.KnownDays | src/eve/web/series.py:64 | day 1 is 1 January of year 1, a Monday, and 27 July 2026 is day 739824, a Monday |
| CsvWriter.Writer.constructor | src/eve/jobs/csv_io.py:162-189 | the header is buffered whatever the threshold |
| CsvWriter.Fields | src/eve/jobs/csv_io.py:181-187 | column by column the row's value of that name, empty where the row has none; other keys are ignored |
| CsvWriter.FileInOrder | src/eve/jobs/csv_io.py:188-195 | the header line comes first and each row's line after all earlier ones |
| CsvWriter.Writer.Write | src/eve/jobs/csv_io.py:191-195 | the row is appended to the text accepted so far and the buffer ends below a positive threshold |
| CsvWriter.Writer.Spill | src/eve/jobs/csv_io.py:197-206 | moving the buffer to disk changes no text, and empty text opens no file |
| CsvWriter.Writer.Close | src/eve/jobs/csv_io.py:208-221 | the stored object is the header followed by all rows and no other object changes; a failing upload stores nothing and loses what had spilled |
| CsvWriter.WriteFile | src/eve/jobs/csv_io.py:152-221 | for every list of rows and every threshold the stored object is the same |

## Left out

- The SMTP conversation, DNS queries, Redis transport, object stores, HTTP delivery and SQL isolation: their results are parameters and each transaction is one step.
- The email-validator parser and the csv library: the parser is any function with the stated property, the rendering of a record is a function.
- The caches of `suggest_domain` and `resolve_mx`: both look-ups are modelled uncached.
- Contended fairness of the rate limiter: the code promises none, and another caller may take the token a sleeper waited for.
- Float rounding, Unicode case folding and Unicode white space: reals and ASCII.
- Verdict tags, the audit record of each layer except the SMTP one, `settled_layer`, `Job.progress` and `Job.duration`: display data.
- Pipeline.Job.RunJob: does not queue re-probes after each chunk; which verdicts it would queue is `TemporaryReplyIsDeferred`. Failures of the stores themselves, which fail the job or are swallowed, are not modelled.
- Pipeline.Job.RunJob: returns at the first raising probe; sibling tasks that keep running afterwards appear in `VerifyStage` only.
- Pipeline.Job.RunJob: requires a fresh job; running one job twice adds to its old counts.
- Engine.BothFormsAgree: is stated with DNS on, since the synchronous form never probes with DNS off.
- IpPoolRuns.SafeExactlyWhenDistinct: covers default-length cooldowns, since a shorter explicit one replaces a longer one; any length is covered by `LatestCooldownIsServed`.
- IpPoolRuns.DailyCapHolds: leaves out warm-up ticks called by hand, which reset the daily count.
- ReprobeRuns.DeferralsAreBounded: a key is enrolled once per run; a later bulk job that schedules the same address afresh restarts its attempts, and one that verifies it afresh overwrites its address row.
- Reprobe.ReprobeStore.RunDueReprobes: leaves out `schedule_many`, `delete_by_job` and a raise in the queue's own writes, which leaves the row as a raise while probing does.
- Reprobe.UpdateAddress: reads and writes the address row in one step; a bulk run writing the same address in between is not modelled.
- Series.Build: bucket labels, the weekday volumes, deliverable rates and deltas are presentation, and Python's limit of years 1 to 9999 is not modelled.
- CsvWriter.Writer.Close: text is modelled in characters; its UTF-8 encoding distributes over concatenation.
- The mapping of a reply to an egress event, `looks_greylisted`, dialect detection, accounts, API keys, webhooks, templates and migrations.
