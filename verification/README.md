# Verified models of the byte store, the content scanner, the content VM and the object job

This project models four components of a PDF engine in Dafny and proves what they promise.
`dafny verify dfyconfig.toml` checks all of it.

**Range store.** `RangeStore` (pdf-rs/bytes) caches byte segments of one immutable source
snapshot and hands out one-shot tickets for bytes that are still missing. `Ranges`,
`Segments` and `Coalesce` treat the canonical segment list as a map from offset to byte and
prove the cursor loops and the in-place coalescing against it. `StoreSpec` says what each
operation may do; the class `RangeStores.RangeStore` has the source's loops and is proved
against it; `StoreInv` shows that every operation keeps the invariant. `StoreRuns`, `WakeUps`
and `Subscriptions` prove safety of whole runs: no lost or false wake-ups, final phases,
exactly-once subscriptions, bytes that never change; `KnownLength` what the store learns of
the length of its source. `ByteCache` is the store as a caller sees it, a finite map of bytes
and a finite map of tickets, and `CacheRefinement` shows that every effect of every operation
is one of its; `Provenance` draws from it that polls return what supplies brought. `Interleaving` is the step machine of
any number of threads over the atomic flag and the lock; `Linearization` derives a sequential
run for every execution, so the run theorems hold of concurrent use, and says what is final
after a source-change signal; `Progress` shows that no call gets stuck. `SupplyOutcome` shows that a supply has one outcome, and
`TicketIdentity` what tickets do not keep. `Resident` interleaves any number of supplies over
the lock-free byte tracker, from the reservation of a response to the segment it becomes.

**Content scanner and numbers.** `Lexical` gives the grammar of literal strings, hexadecimal
strings and names (sections 7.3.4.2, 7.3.4.3 and 7.3.5 of ISO 32000-1) and proves the
decoding passes against it. `ContentTokens` defines the token sequence of a stream sequence
as a function of its bytes, and operand trees by the tokens they flatten to. The class
`Scanner.Runner` is the source's scanner, fuel and all; its ghost log ties every tree it
returns to those tokens, and `TokenGrammar` shows that what it rejects as malformed no program
spells. `ScanLimits` says how much of each limit a program takes up, and every refusal of the
scanner is justified by it. `TokenText` writes strings, names, white space and comments out
byte for byte and shows that these texts, and no others, are the accepted ones and mean what
is written. `Decimal` defines what a decimal lexeme is worth by its digits; `ContentNumbers` and
`NumberLexemes` prove the exact conversion and the scanner's number grammar against it, and
`DecimalText` that every number, written in base ten, is read back.

**Content VM.** `VmPlan` reads what is in force at a position of a program (matrix, font, mode,
nesting) off the operators in front of it, without a stack, and proves the planner with its
stacks to accept exactly the legal programs and to plan what is in force. `VmExec` does the
same for plans and the text executor; `VmSimulation` is the forward simulation between the two
and the materialization loop; `GraphicsStack` what q and Q preserve. `ContentMachine`
interprets programs and plans with explicit stacks and shows that both put the same events on
the page; `ContentLaws` spells by counting which programs are planned, why the others are not,
and which plans run. `Matching` is the bracket matching they share. `Growth` bounds the fuel of vector relocations, `Alpha` rounds alpha
constants.

**Object job.** `ObjectJob` splits read and parse budgets among child jobs that are arbitrary
except that they obey their caps. Its budgets are proved of what the children have done, and
each of its failures names what is to blame.

## How the models read

- A class stands for an object whose methods update its fields. Its methods have the source's
  loops and branches; their contracts equate the new state with a specification function or
  relation of the old one, and lemmas prove what the source promises of that specification.
- Foreign threads appear in the store class as booleans saying at which flag check a foreign
  swap has landed, and in `Interleaving` as steps of their own. Each atomic operation is one
  step, the mutex is mutual exclusion. Writes under the lock become visible at its release.
- Fallible allocations, cancellation, guards and the outcomes of child jobs are arbitrary:
  fields of `Alloc`, `Ruling` and `Children`, or nondeterministic choices. A vector's capacity
  is any value at least as large as requested.
- Histories (`World`) count subscriptions by ticket number, job and checkpoint, so a job that
  leaves and subscribes again is counted twice.
- Vectors of operands, dictionary entries and operators are lists that grow at the end,
  which keeps recursion over trees structural.

## Where the code and its documents differ

- The number grammar accepts exponents, which section 7.3.3 of ISO 32000-1 does not have. The
  model follows the code.

## What the store does not keep

- Tickets that wait for distinct ranges: `TicketIdentity.TicketsConverge` has two polls and a
  supply after which two pending tickets wait for the same ranges. A supply does that exactly
  when it covers every offset in which the two lists differ, leaves something of them missing
  and binds no length that this lies past (`TicketIdentity.MissingConverges`). No other
  operation does it, so a run is free of such pairs exactly until such a supply
  (`TicketIdentity.DistinctThroughout`).
- Ticket numbers without gaps: `TicketIdentity.FirstNumberLost` has a poll that loses one. The
  next number counts the tickets opened and the numbers lost (`TicketIdentity.NumbersCount`); a
  number is lost exactly when a poll would open a ticket and its subscriber list cannot be
  allocated (`TicketIdentity.NumberLost`).

## Model

| member | source | states |
|---|---|---|
| `Ranges.NewRange` | pdf-rs/bytes/src/range.rs:12-22 | a range exists exactly for a positive length whose exclusive end fits a u64, and covers exactly those offsets |
| `Ranges.TryFromCanonical` | pdf-rs/bytes/src/range.rs:50-73 | accepts exactly the non-empty lists within the count that are sorted, disjoint and non-adjacent; the byte total never overflows on the way |
| `Ranges.CanonicalUnique` | pdf-rs/bytes/src/store.rs:994-998 | a canonical list is determined by the offsets it covers, so comparing missing lists is comparing sets of offsets |
| `Segments.TotalIsCachedCount` | pdf-rs/bytes/src/store.rs:324-326 | on a canonical list the byte count is the number of distinct cached offsets and never more than the backing capacity |
| `Segments.RangeIsCovered` | pdf-rs/bytes/src/store.rs:1191-1206 | true exactly when every offset of the range is cached |
| `Segments.CoveredInOne` | pdf-rs/bytes/src/store.rs:1208-1226 | a covered range lies in one segment |
| `Segments.BorrowRange` | pdf-rs/bytes/src/store.rs:1208-1226 | finds bytes exactly when the range is covered, and they are the cached content of the range |
| `Segments.GapsExact` | pdf-rs/bytes/src/store.rs:1269-1309 | the missing ranges are canonical, are exactly the uncached offsets of the request, and are empty exactly when it is covered |
| `Segments.AppendUncoveredRanges` | pdf-rs/bytes/src/store.rs:1269-1309 | the cursor loop appends exactly the gaps of the request, or reports the count limit |
| `Segments.MissingRanges` | pdf-rs/bytes/src/store.rs:1228-1239 | for an uncovered request: the gaps, or a limit error when they are too many; never an internal error |
| `Segments.GapsOfExact` | pdf-rs/bytes/src/store.rs:1241-1255 | what remains of a canonical missing list after more bytes are cached is canonical and exactly its still uncached offsets |
| `Segments.GapsCompose` | pdf-rs/bytes/src/store.rs:1241-1255 | shrinking an old missing list gives the same list as recomputing the missing ranges of the original request |
| `Segments.RemainingMissingRanges` | pdf-rs/bytes/src/store.rs:1241-1255 | returns what remains, nothing when all of it is cached, or the count limit |
| `Coalesce.OverlapConflicts` | pdf-rs/bytes/src/store.rs:1147-1171 | true exactly when a segment and a response disagree on an offset they share |
| `Coalesce.FindConflict` | pdf-rs/bytes/src/store.rs:519-530 | true exactly when the response disagrees with any cached byte |
| `Coalesce.FindAffected` | pdf-rs/bytes/src/store.rs:557-573 | collects exactly the run of segments that overlap or touch the response, and the bounds of their union |
| `Coalesce.CopyIntoUnion` | pdf-rs/bytes/src/store.rs:1173-1189 | splices a source into the union buffer in place and changes nothing else |
| `Coalesce.BuildUnion` | pdf-rs/bytes/src/store.rs:657-671 | the coalesced backing holds every replaced segment and the response |
| `Coalesce.KeepUnaffected` | pdf-rs/bytes/src/store.rs:688-692 | keeps exactly the segments outside the affected run, in order |
| `Coalesce.SearchStart` | pdf-rs/bytes/src/store.rs:693-695 | binary search by start offset: the insertion point that keeps the list sorted |
| `Coalesce.RebuiltSorted` | pdf-rs/bytes/src/store.rs:678-703 | replacing the run by its union leaves a sorted, disjoint, non-adjacent list |
| `Coalesce.RebuiltAt` | pdf-rs/bytes/src/store.rs:678-703 | the rebuilt list stands for the old content updated by the response, at every offset |
| `SupplyPrep.PrepareSegments` | pdf-rs/bytes/src/store.rs:547-703 | the canonical rebuilt list with its exact byte count, or exactly the first limit or refused reservation on the way to it |
| `SupplyPrep.PrepareUpdates` | pdf-rs/bytes/src/store.rs:705-729 | one prepared update per pending ticket, or exactly the first limit their remainders meet |
| `SupplyPrep.UpdatesWake` | pdf-rs/bytes/src/store.rs:705-748 | applying the prepared updates makes of every ticket what the new content makes of it |
| `SupplyPrep.UpdatesReady` | pdf-rs/bytes/src/store.rs:735-748 | the tickets reported ready are exactly those the new content makes ready, in order |
| `RangeStores.RangeStore.New` | pdf-rs/bytes/src/store.rs:268-316 | a new store is empty and satisfies the invariant; a snapshot longer than the input limit is an InputBytes error, a refused reservation an allocation error |
| `RangeStores.RangeStore.TransitionSourceChanged` | pdf-rs/bytes/src/store.rs:1113-1119 | exactly the pending tickets become source-changed |
| `RangeStores.RangeStore.CompleteTicketsAtEof` | pdf-rs/bytes/src/store.rs:1121-1141 | wakes exactly the pending tickets that wait past the bound length and reports them in order |
| `RangeStores.RangeStore.RejectOversize` | pdf-rs/bytes/src/store.rs:899-921 | a refused response still poisons the store when its metadata contradicts what is bound or cached |
| `RangeStores.RangeStore.ObserveSnapshot` | pdf-rs/bytes/src/store.rs:338-408 | one observation step wherever foreign flag swaps land; a success means that no flag check saw a swap |
| `RangeStores.RangeStore.SupplyResponse` | pdf-rs/bytes/src/store.rs:415-754 | one supply step wherever foreign flag swaps land, with the exact limit when one is met; a success means that no flag check saw a swap; the invariant is kept |
| `RangeStores.RangeStore.PollRange` | pdf-rs/bytes/src/store.rs:951-1088 | one poll step: bytes, end of file, a ticket to wait for, or a limit error, never an internal error; the invariant is kept |
| `RangeStores.RangeStore.FailTicket` | pdf-rs/bytes/src/store.rs:757-779 | one fail step; integrity errors poison the whole store |
| `RangeStores.RangeStore.SignalSourceChanged` | pdf-rs/bytes/src/store.rs:785-790 | sets the flag and leaves no ticket pending |
| `RangeStores.RangeStore.UnsubscribeJob` | pdf-rs/bytes/src/store.rs:796-821 | removes every subscription of the job; the ticket is abandoned exactly when none is left |
| `RangeStores.RangeStore.TakeSubscriptions` | pdf-rs/bytes/src/store.rs:828-846 | hands out and empties the subscriptions of a terminal ticket |
| `RangeStores.RangeStore.TicketStatus` | pdf-rs/bytes/src/store.rs:849-866 | reports the phase, and the subscriber count while pending |
| `RangeStores.RangeStore.ReleaseTicket` | pdf-rs/bytes/src/store.rs:869-891 | removes a terminal ticket whose subscriptions were taken, and only such a ticket |
| `StoreSpec.NewResponse` | pdf-rs/bytes/src/source.rs:399-422 | a response exists exactly when its bytes fill its range and stay within a declared length |
| `StoreInv.SupplyKeepsInv` | pdf-rs/bytes/src/store.rs:415-754 | a supply keeps canonical segments, exact counters and exact missing lists |
| `StoreInv.PollKeepsInv` | pdf-rs/bytes/src/store.rs:951-1088 | a poll keeps the invariant: counters stay sums, bounds hold, one subscription per job and ticket |
| `StoreInv.StepKeepsInv` | pdf-rs/bytes/src/store.rs:338-1088 | every operation keeps the store invariant while the flag is clear, and a poisoning leaves nothing pending |
| `StoreInv.WhenChangedKeepsInv` | pdf-rs/bytes/src/store.rs:932-938 | every operation keeps the invariant once the flag is set, and nothing is or becomes pending |
| `StoreRuns.SupplyIsMapUnion` | pdf-rs/bytes/src/store.rs:415-754 | supply refines map union: old content updated by the response, with agreement on every shared offset; a resource failure changes nothing |
| `SupplyOutcome.LimitByContent` | pdf-rs/bytes/src/store.rs:547-729 | which limit a supply meets first depends on the new content alone, not on the list or the backings that hold it |
| `SupplyOutcome.OutcomeDetermined` | pdf-rs/bytes/src/store.rs:415-754 | a supply cannot both commit and fail, nor fail in two ways |
| `StoreRuns.RunInv` | pdf-rs/bytes/src/store.rs:266-1088 | every point of every run satisfies the invariant |
| `StoreRuns.RunOnlyGrows` | pdf-rs/bytes/src/store.rs:735-748 | over any run a cached byte, a bound length and a source change are final |
| `StoreRuns.ReturnedBytesAgree` | pdf-rs/bytes/src/store.rs:975-984 | two polls of one run never return different bytes for one offset |
| `KnownLength.SuccessTeaches` | pdf-rs/bytes/src/store.rs:366-407 | a successful supply or observation that carries a length leaves the store with that length, one without a length leaves it without; a known length is never replaced by another |
| `KnownLength.KnownExactly` | pdf-rs/bytes/src/store.rs:341-754 | at every point of every run the store knows a length exactly when its own snapshot has it or a successful supply or observation before carried it |
| `KnownLength.NoneWaitsPastLength` | pdf-rs/bytes/src/store.rs:735-748 | once a length was carried, no ticket waits for anything past it at any later point of the run |
| `KnownLength.PollPastLength` | pdf-rs/bytes/src/store.rs:951-973 | and every poll within the read limit that ends past it is answered with the end of the file |
| `CacheRefinement.EffectIsAnswer` | pdf-rs/bytes/src/store.rs:338-1088 | refinement: seen as a finite map of bytes and a finite map of tickets, every effect of every operation, with the flag clear or set, is what `ByteCache` says: map union for a supply, the tickets that want nothing more or something past the end wake, each failure with its cause |
| `CacheRefinement.SupplyView` | pdf-rs/bytes/src/store.rs:415-754 | a supply unites the byte maps when they agree, counts the union, keeps the limits on bytes, runs and missing runs, wakes exactly the due tickets; a foreign snapshot, a contradicted length, a disagreeing byte or an exceeded limit is what each failure means |
| `CacheRefinement.PollView` | pdf-rs/bytes/src/store.rs:951-1088 | a poll returns the cached bytes exactly when all are cached, joins the oldest ticket that wants exactly the lacking offsets, or opens a new one for them with this subscription |
| `CacheRefinement.CommitView` | pdf-rs/bytes/src/store.rs:705-748 | the tickets reported are exactly those that turn from pending to ready, in ascending order, and nothing else changes |
| `CacheRefinement.UnsubscribeView` | pdf-rs/bytes/src/store.rs:796-821 | the one subscription of the job goes, the others stay in order, and the ticket is abandoned exactly when none is left |
| `CacheRefinement.SegmentsAreRuns` | pdf-rs/bytes/src/store.rs:557-703 | a canonical list has one segment for each run of neighbouring cached offsets |
| `Provenance.RunIsAnswered` | pdf-rs/bytes/src/store.rs:338-1088 | every step of every run is an answer of the map model |
| `Provenance.PollReturnsSupplied` | pdf-rs/bytes/src/store.rs:951-984 | each byte a poll returns was brought for its offset by an earlier supply of the run, and is what every earlier supply brought for it |
| `WakeUps.WokenServes` | pdf-rs/bytes/src/store.rs:705-748 | a commit turns a ticket that serves a request into one that still serves it |
| `WakeUps.NoLostOrFalseWakeUps` | pdf-rs/bytes/src/store.rs:951-1088 | no lost and no false wake-ups, for every range ever subscribed to a ticket, at every point of every run with the flag clear |
| `WakeUps.TerminalPhasesAreFinal` | pdf-rs/bytes/src/store.rs:757-891 | over any run a terminal phase never changes |
| `TicketIdentity.MissingConverges` | pdf-rs/bytes/src/store.rs:705-748 | a commit leaves two tickets pending for the same ranges exactly when the response covers every offset in which their lists differ, something of them stays missing and nothing of that lies past a newly bound length |
| `TicketIdentity.EffectTwins` | pdf-rs/bytes/src/store.rs:338-1088 | an operation makes two tickets pending for the same ranges exactly when it is a successful supply that finds two records to converge |
| `TicketIdentity.DistinctThroughout` | pdf-rs/bytes/src/store.rs:338-1088 | up to any point of any run no two tickets were ever pending for the same ranges exactly when no supply found two records to converge |
| `TicketIdentity.TicketsConverge` | pdf-rs/bytes/src/store.rs:994-1087 | two polls and one supply after which two pending tickets wait for the same ranges |
| `TicketIdentity.FirstNumberLost` | pdf-rs/bytes/src/store.rs:1050-1087 | a first poll that loses ticket number 1 |
| `TicketIdentity.NumbersCount` | pdf-rs/bytes/src/store.rs:1050-1087 | over any run the next number is one more than the tickets opened and the numbers lost |
| `Subscriptions.SubscriptionsExactlyOnce` | pdf-rs/bytes/src/store.rs:796-846 | at every point of every run each accepted subscription is retained, left or taken, counted exactly; the counter is the sum over tickets and bounded; pending tickets have subscribers, one per job |
| `Subscriptions.UnsubscribeBalances` | pdf-rs/bytes/src/store.rs:796-821 | what unsubscribe removes and what it keeps add up to what was held |
| `Subscriptions.TakeBalances` | pdf-rs/bytes/src/store.rs:828-846 | what take returns and what stays add up to what was held |
| `Interleaving.StepSimulates` | pdf-rs/bytes/src/store.rs:923-954 | every atomic step of every thread is invisible or exactly one operation taking effect |
| `Interleaving.CommitSimulates` | pdf-rs/bytes/src/store.rs:389-407 | the second flag check linearizes a commit, or turns it into a source-changed failure |
| `Linearization.LinearizesOnce` | pdf-rs/bytes/src/store.rs:923-930 | a step of a thread moves no other, keeps its operation, and passes its linearization point at most once |
| `Linearization.OneEffectPerCall` | pdf-rs/bytes/src/store.rs:338-954 | in every execution every call that returns has taken effect exactly once, between its invocation and its return, with its operation and the reply it returns |
| `Linearization.Linearizable` | pdf-rs/bytes/src/store.rs:338-954 | every execution of any number of threads has a sequential run with the same operations, replies and final state |
| `Linearization.AfterSignal` | pdf-rs/bytes/src/store.rs:785-790 | once any signal has returned, no ticket is ever pending again and every later poll, supply and observation fails |
| `Linearization.LateCheckCommitsNothing` | pdf-rs/bytes/src/store.rs:731-748 | an operation whose flag check follows the swap commits no segment, no length and wakes no ticket |
| `Progress.StepEnds` | pdf-rs/bytes/src/store.rs:338-1088 | in every sound store every operation has an outcome, whatever the allocator refuses |
| `Progress.ExecutionsGoOn` | pdf-rs/bytes/src/store.rs:923-954 | no deadlock: at every point of every execution each thread can move, or waits for the lock while the thread that holds it can move |
| `Progress.StepsAdvance` | pdf-rs/bytes/src/store.rs:923-954 | every step of its own takes a call further: at most seven of them |
| `Resident.ResidentTracker.TryReserve` | pdf-rs/bytes/src/source.rs:27-99 | the loop round the weak compare-exchange, spurious failures included: decided by the last value seen, it adds what is asked for, or all that is left when the remainder is claimed, exactly if that fits, and otherwise reports what was attempted |
| `Resident.ResidentTracker.Release` | pdf-rs/bytes/src/source.rs:101-104 | the wrapping subtraction never wraps |
| `Resident.BytesFit` | pdf-rs/bytes/src/source.rs:101-104 | a reservation is part of the counter, so its release cannot underflow |
| `Resident.ActKeepsInv` | pdf-rs/bytes/src/store.rs:455-703 | every atomic step of every supply keeps the counter equal to the live reservations and within the ceiling, every segment backed by a reservation of its own, and the lock with a thread that is between acquiring and giving it up |
| `Resident.CommitKeepsInv` | pdf-rs/bytes/src/store.rs:678-703 | a commit hands the reservation that was adopted to the segment it installs, and installs the old content updated by the response |
| `Resident.CommitEnabled` | pdf-rs/bytes/src/store.rs:678-703 | a supply that has adopted its backing can always commit: the adopted capacity holds the union |
| `Resident.NoInternalErrors` | pdf-rs/bytes/src/source.rs:115-138 | both adoptions meet a reservation of exactly their capacity, and the claim is large enough to shrink |
| `Resident.RunKeepsInv` | pdf-rs/bytes/src/store.rs:455-703 | in every interleaving of supplies the counter is the sum of live reservations, at most the ceiling and at least the cached bytes |
| `Resident.ClaimThenShrink` | pdf-rs/bytes/src/store.rs:618-676 | a supply that claims all that is left and later shrinks its claim returns exactly the surplus, whatever others did in between |
| `Decimal.DenotesOnce` | pdf-rs/content/src/number.rs:65-75 | a lexeme denotes at most one multiple of 10^-9 |
| `Decimal.DenotesScaled` | pdf-rs/content/src/number.rs:133-159 | a nonzero lexeme denotes such a multiple exactly when the decimal shift is not negative, and then this one |
| `ContentNumbers.ScanMantissa` | pdf-rs/content/src/number.rs:78-117 | accepts exactly the well-formed mantissas and finds the digit counts and the first and last nonzero digit |
| `ContentNumbers.ParseExponent` | pdf-rs/content/src/number.rs:182-215 | the exponent, or which side of i128 it lies beyond |
| `ContentNumbers.Magnitude` | pdf-rs/content/src/number.rs:174-188 | the significant digits as a u64; no checked step fails |
| `ContentNumbers.TooLarge` | pdf-rs/content/src/number.rs:163-172 | more than nineteen scaled digits are never representable |
| `ContentNumbers.TooPrecise` | pdf-rs/content/src/number.rs:157-161 | a negative shift drops nonzero digits |
| `ContentNumbers.FitsWord` | pdf-rs/content/src/number.rs:168-194 | at most nineteen scaled digits: every u64 operation is exact |
| `ContentNumbers.SignedScaled` | pdf-rs/content/src/number.rs:217-236 | the signed value exactly when it fits an i64 |
| `ContentNumbers.ParseContentNumber` | pdf-rs/content/src/number.rs:65-180 | exact conversion: the value, NumericPrecision exactly when it is no multiple of 10^-9, NumericOverflow exactly when it is one out of range, for every lexeme |
| `ContentNumbers.ConvertsOnce` | pdf-rs/content/src/number.rs:65-180 | the four outcomes exclude each other |
| `NumberLexemes.ParseNumber` | pdf-rs/content/src/scanner.rs:1142-1213 | accepts exactly the well-formed lexemes, except integers beyond i64, and tells integers from reals |
| `NumberLexemes.GrammarsAgree` | pdf-rs/content/src/number.rs:31-36 | scanner and exact conversion agree on every byte string; integers convert to the same result either way |
| `DecimalText.WellFormedIsWritten` | pdf-rs/content/src/number.rs:78-117 | the well-formed lexemes are, byte for byte, an optional sign, digits with at most one point, and an optional power of ten, and no others |
| `DecimalText.DenotesWhatIsWritten` | pdf-rs/content/src/number.rs:133-159 | what a lexeme denotes is the number its digits write in base ten, with sign, decimals and power |
| `DecimalText.WrittenConverts` | pdf-rs/content/src/number.rs:65-236 | the conversion of any written lexeme: that number of billionths when it is one and 64 bits hold it, overflow when they do not, NumericPrecision when it is none |
| `DecimalText.WrittenScans` | pdf-rs/content/src/scanner.rs:1142-1213 | the scanner takes a written lexeme for a real exactly when it has a point or a power, and otherwise for the integer that is written, if 64 bits hold it |
| `DecimalText.IntegersRoundTrip` | pdf-rs/content/src/scanner.rs:1193-1212 | round trip: every integer written in base ten is read back by scanner and conversion |
| `DecimalText.DecimalsRoundTrip` | pdf-rs/content/src/number.rs:65-180 | round trip: every number of nine decimals is read back to the last of them |
| `DecimalText.PowersRoundTrip` | pdf-rs/content/src/number.rs:182-215 | round trip: a power of ten behind its mark, in either case and with any sign, moves the point by that many places |
| `Lexical.LexIsGrammar` | pdf-rs/content/src/scanner.rs:1215-1281 | four bytes of lookahead find the one longest piece of the literal-string grammar of section 7.3.4.2 of ISO 32000-1 |
| `Lexical.ReadsInner` | pdf-rs/content/src/scanner.rs:726 | cutting an accepted literal at its closing parenthesis does not change how it reads |
| `Lexical.DecodeLiteral` | pdf-rs/content/src/scanner.rs:1215-1281 | the second pass stays in bounds and writes exactly what the pieces stand for |
| `Lexical.DecodeOctal` | pdf-rs/content/src/scanner.rs:1252-1264 | octal escapes accumulate to their value modulo 256 |
| `Lexical.OctalRoundTrip` | pdf-rs/content/src/scanner.rs:1215-1281 | round trip: every byte string, written as octal escapes, is an accepted literal that decodes to itself |
| `Lexical.DecodeHex` | pdf-rs/content/src/scanner.rs:1283-1299 | pairs of hexadecimal digits, white space skipped, an odd last digit padded with zero |
| `Lexical.DecodeName` | pdf-rs/content/src/scanner.rs:619-636 | the second pass of a name finds every escape it takes for granted |
| `ContentTokens.TokensOfTree` | pdf-rs/content/src/scanner.rs:408-480 | an operand tree has one token per leaf and key and two per container |
| `ContentTokens.CompleteOnce` | pdf-rs/content/src/scanner.rs:245-297 | the bytes alone determine the token sequence |
| `ContentTokens.LogInOrder` | pdf-rs/content/src/scanner.rs:245-297 | tokens follow one another without overlap |
| `ContentTokens.SkipTwice` | pdf-rs/content/src/scanner.rs:840-863 | skipping white space and comments twice is skipping them once, across streams too |
| `Scanner.Runner.ChargeFuel` | pdf-rs/content/src/scanner.rs:892-918 | fuel is charged exactly or not at all and never passes its limit |
| `Scanner.Runner.FinishToken` | pdf-rs/content/src/scanner.rs:865-890 | a token charges one more unit and joins the log |
| `Scanner.Runner.SkipTrivia` | pdf-rs/content/src/scanner.rs:840-863 | moves to the next token position and charges every byte on the way once |
| `Scanner.Runner.ScanRegular` | pdf-rs/content/src/scanner.rs:782-809 | the longest run of regular characters |
| `Scanner.Runner.ScanName` | pdf-rs/content/src/scanner.rs:575-637 | a name means what its bytes spell; the first pass counted the characters the second writes |
| `Scanner.Runner.ValidateLiteral` | pdf-rs/content/src/scanner.rs:639-718 | the first pass charges each byte once, finds the balancing parenthesis and counts the decoded bytes; unterminated exactly when there is none |
| `Scanner.Runner.ScanLiteral` | pdf-rs/content/src/scanner.rs:639-731 | both passes: the decoded bytes are what the grammar says and as many as were counted |
| `Scanner.Runner.ValidateHex` | pdf-rs/content/src/scanner.rs:733-765 | the first pass of a hexadecimal string |
| `Scanner.Runner.ScanHex` | pdf-rs/content/src/scanner.rs:733-776 | both passes of a hexadecimal string agree |
| `Scanner.LiteralReads` | pdf-rs/content/src/scanner.rs:639-731 | what stands between the parentheses of an accepted literal: balanced pieces with the counted meaning |
| `Scanner.LiteralAccepted` | pdf-rs/content/src/scanner.rs:639-731 | the first pass accepts exactly the literals of the grammar: a balanced list of pieces in parentheses |
| `Scanner.OctalAccepted` | pdf-rs/content/src/scanner.rs:639-731 | written as octal escapes, every byte string is one token that means that string |
| `TokenText.LiteralRoundTrip` | pdf-rs/content/src/scanner.rs:639-731 | a literal written byte for byte, with every escape, line end and continuation of section 7.3.4.2 of ISO 32000-1, is one accepted token and means what is written |
| `TokenText.LiteralsAreWritten` | pdf-rs/content/src/scanner.rs:639-731 | the accepted literals are those texts and no others |
| `TokenText.ByteStringsRoundTrip` | pdf-rs/content/src/scanner.rs:1222-1233 | round trip: every byte string, written with letters for the five control characters and a backslash in front of parentheses and backslashes, decodes to itself |
| `TokenText.HexRoundTrip` | pdf-rs/content/src/scanner.rs:1283-1299 | a text of hexadecimal figures in either case and white space is one token, and means exactly the bytes its figures pair to |
| `TokenText.HexIsWritten` | pdf-rs/content/src/scanner.rs:733-765 | the accepted hexadecimal strings are those texts and no others |
| `TokenText.NamesAreWritten` | pdf-rs/content/src/scanner.rs:575-637 | the accepted names are a slash with regular characters and two-figure escapes up to one of sixteen bytes or the end, and mean what those stand for |
| `TokenText.TriviaIsWritten` | pdf-rs/content/src/scanner.rs:840-863 | what is skipped is white space and comments, byte for byte, and all of it |
| `TokenText.Words` | pdf-rs/content/src/scanner.rs:782-809 | any other byte begins a token that lasts up to one of those sixteen bytes |
| `TokenText.Keywords` | pdf-rs/content/src/scanner.rs:455-480 | three words are operands; any other word that does not begin as a number is an operator |
| `Scanner.DecodeLiteralToken` | pdf-rs/content/src/scanner.rs:719-730 | the slice handed to the second pass decodes to the counted number of bytes |
| `Scanner.Runner.PrimitiveOperand` | pdf-rs/content/src/scanner.rs:455-480 | null, booleans, integers and reals by their bytes; anything else is an operator |
| `Scanner.Runner.ParseOperand` | pdf-rs/content/src/scanner.rs:408-444 | one tree: its tokens join the log in order, its nodes the operand count, its depth the nesting maximum; it terminates |
| `Scanner.Runner.ParseArray` | pdf-rs/content/src/scanner.rs:482-509 | the same for an array, with its brackets |
| `Scanner.Runner.ParseDictionary` | pdf-rs/content/src/scanner.rs:511-548 | the same for a dictionary, with its keys |
| `Scanner.Runner.EnterContainer` | pdf-rs/content/src/scanner.rs:550-565 | nesting is refused exactly beyond its limit and its maximum is recorded |
| `Scanner.Runner.AdmitInputs` | pdf-rs/content/src/scanner.rs:299-334 | accepts exactly the inputs within the stream and byte limits and sums their lengths |
| `Scanner.Runner.PublishOperator` | pdf-rs/content/src/scanner.rs:361-406 | the operator takes all pending operands and the next ordinal |
| `Scanner.Runner.Scan` | pdf-rs/content/src/scanner.rs:245-297 | on success fuel is decoded bytes plus tokens, tokens are operators plus leaves plus keys plus two per container, operands are nodes, nesting is the real depth, and the log is the complete token sequence; fuel stays within its limit in every run; every rejection is justified: a syntactic one means that no program has these bytes, one that names a limit that every program these bytes could be is beyond it, an internal one that the input is longer than 32 bits count |
| `ScanLimits.ProgramsAreNotRefused` | pdf-rs/content/src/scanner.rs:161-335 | a program within its limits is refused by a cancellation or the allocator alone |
| `ScanLimits.TreeOutstanding` | pdf-rs/content/src/scanner.rs:346-360 | read token by token, a tree at top level is one more operand for the next operator, and none inside a container |
| `ScanLimits.TreeTallest` | pdf-rs/content/src/scanner.rs:550-565 | reading a tree has as many containers open at a time as the tree is deep, and no more |
| `Scanner.DepthOfProgram` | pdf-rs/content/src/scanner.rs:550-565 | the recorded depth of a program is the most containers its tokens have open at a time |
| `TokenGrammar.RunTree` | pdf-rs/content/src/scanner.rs:408-565 | reading its tokens one by one, every operand tree takes the reading from in front of an operand to behind it |
| `TokenGrammar.MisplacedIsHopeless` | pdf-rs/content/src/scanner.rs:408-565 | streams in which the next token is out of place are the bytes of no program |
| `TokenGrammar.NoTokenIsHopeless` | pdf-rs/content/src/scanner.rs:575-809 | streams in which no token begins where one must are the bytes of no program |
| `Scanner.RunProgram` | pdf-rs/content/src/scanner.rs:336-406 | the tokens of a program are read to the end of its last operator |
| `Scanner.TokensOfProgram` | pdf-rs/content/src/scanner.rs:361-406 | the tokens of a program by its shape |
| `Scanner.SpansIncrease` | pdf-rs/content/src/scanner.rs:361-406 | operator spans are non-empty and strictly increasing |
| `Matching.DepthIsLevel` | pdf-rs/content/src/vm.rs:3694-3992 | counting q against Q gives the number of brackets that are open when every Q takes back its own q |
| `VmPlan.Planner.PlanTextOperator` | pdf-rs/content/src/vm.rs:2336-2615 | refuses exactly the text operators that are illegal where they stand; otherwise the planner has in force what the operators so far set |
| `VmPlan.Planner.PlanSave` | pdf-rs/content/src/vm.rs:3694-3899 | q is refused exactly beyond the depth limit; otherwise the innermost saved entry is what is in force in front of it |
| `VmPlan.Planner.PlanRestore` | pdf-rs/content/src/vm.rs:3900-3992 | Q is refused exactly without an open q; otherwise the stacks give back the matrix and text state in front of the matching q |
| `VmPlan.Planner.PlanOperator` | pdf-rs/content/src/vm.rs:3221-3462 | an operator is refused exactly when it is illegal where it stands, with the reason of the first stage that finds one; otherwise the planner stands behind it |
| `VmPlan.Planner.Build` | pdf-rs/content/src/vm.rs:3114-5024 | plans exactly the legal programs; the plan is what is in force operator by operator, read off the program without a stack; a refusal names the first reason |
| `VmExec.PlanFontResources` | pdf-rs/content/src/vm.rs:2219-2296 | registers the font uses of a plan in plan order |
| `VmExec.TextExecutor.SaveParameters` | pdf-rs/content/src/vm.rs:5095-5101 | fails exactly on a full parameter stack; otherwise the innermost saved entry is what is in force |
| `VmExec.TextExecutor.RestoreParameters` | pdf-rs/content/src/vm.rs:5133-5139 | fails exactly on an empty stack; otherwise gives back what was in force in front of the matching Save |
| `VmExec.TextExecutor.ExecuteBoundary` | pdf-rs/content/src/vm.rs:5141-5160 | fails exactly on mismatched text-object boundaries |
| `VmExec.TextExecutor.Execute` | pdf-rs/content/src/vm.rs:5167-5285 | fails exactly on a structural surprise; otherwise the parameters are what the plan has set behind the action |
| `VmExec.TextExecutor.ExecuteAction` | pdf-rs/content/src/vm.rs:5923-5991 | any action of a plan: fails exactly on a structural surprise, and otherwise moves on by one action |
| `VmSimulation.LegalInStep` | pdf-rs/content/src/vm.rs:2336-2615 | where the actions of operator n begin, a run has in force what the program has in force in front of operator n |
| `VmSimulation.PlansRun` | pdf-rs/content/src/vm.rs:5867-6237 | forward simulation: the plan of a legal program runs without a structural surprise, shows every text with the mode and the matrix in force in front of its operator, and ends with every Save restored and every font use consumed |
| `ContentMachine.PlanShowsProgram` | pdf-rs/content/src/vm.rs:2336-2615 | a plan puts on the page, event by event, what an interpreter of the program with an explicit stack puts there: text with the same matrix, font and mode, moves, settings, boundaries and paintings, the Form envelope in front; the final matrix is the interpreter's and both stacks end empty |
| `ContentMachine.LegalAgrees` | pdf-rs/content/src/vm.rs:3694-3992 | that interpreter runs through every legal program and has in force what is read off the operators |
| `ContentLaws.LegalIsLawful` | pdf-rs/content/src/vm.rs:3114-5024 | the planned programs are those in which, counting operators, every pair nests within its limit and is closed, every operator stands where it may and is supported, and nothing outside interferes |
| `ContentLaws.StopsAreDue` | pdf-rs/content/src/vm.rs:3221-4900 | every refusal names a fault of the first operator that is not lawful, of what is left open, or a Form envelope without room |
| `ContentLaws.StopsOnce` | pdf-rs/content/src/vm.rs:3221-4900 | a program is refused for one reason only, and never when it is planned |
| `ContentLaws.RecordedDepth` | pdf-rs/content/src/vm.rs:2924-3108 | the recorded depth is reached by the program and never passed, the envelope included |
| `ContentLaws.NoSurpriseIsOrder` | pdf-rs/content/src/vm.rs:5064-5330 | a plan runs without a structural surprise exactly when, counting actions, it is in order |
| `VmSimulation.Materialize` | pdf-rs/content/src/vm.rs:5867-6237 | only guards and budgets can stop the materialization of such a plan |
| `GraphicsStack.SaveRestoreNeutral` | pdf-rs/content/src/vm.rs:3694-3992 | behind a q and Q that balance by counting, the matrix, the text state and the open q operators are those in front of the q |
| `GraphicsStack.FinalCtmIsTopLevel` | pdf-rs/content/src/vm.rs:4898-4900 | the final matrix is the product of the top-level cm operands alone, and q and Q balance |
| `GraphicsStack.PlansNest` | pdf-rs/content/src/vm.rs:2924-3108 | emitted saves and restores nest, Form envelope included, never deeper than recorded or allowed |
| `Growth.GeometricCapacity` | pdf-rs/content/src/vm.rs:7113-7123 | at least what is required and at least double, and no more than the greater of the two, or four to begin with |
| `Growth.SlotVector.ReserveSlot` | pdf-rs/content/src/vm.rs:7031-7077 | a full vector pays one unit of fuel per element and gets at least the doubled capacity, one with room pays nothing; each refusal says what it exceeded and what it has charged |
| `Growth.PushAll` | pdf-rs/content/src/vm.rs:7092-7111 | any number of reservations with their pushes: the values are there and the fuel charged is at most two units per push, one more per value when a growth is refused |
| `Growth.RelocationIsLinear` | pdf-rs/content/src/vm.rs:7031-7077 | for any allocator and any run of pushes, relocation costs at most twice the pushes and never more than the capacity bought |
| `ObjectJob.CappedDecode` | pdf-rs/document/src/acquired_object.rs:2032-2065 | the decoder gets no more than its own limit and no more than the cap, and its limits stay ordered |
| `ObjectJob.OpenAcquiredObjectJob.PlanPayload` | pdf-rs/document/src/acquired_object.rs:1318-1406 | a payload is admitted exactly when it is a non-empty stream within its limit and the remaining read budget; a refusal names the smaller of the two that it exceeds |
| `ObjectJob.OpenAcquiredObjectJob.ParseWithin` | pdf-rs/document/src/acquired_object.rs:1505-1672 | the decoder gets the remainder less one, the parser what the decoder left; what each of them did is recorded, and together they stay within what is left, succeed or fail |
| `ObjectJob.OpenAcquiredObjectJob.Poll` | pdf-rs/document/src/acquired_object.rs:1210-1488 | totals within the caps, phases only forward, none of the failures that obedient children cannot cause; the work added is what the children answered, Ready means that the parser accepted the object under its cap, Pending that a child is pending, and each failure that what it blames has happened |
| `ObjectJob.BudgetsKept` | pdf-rs/document/src/acquired_object.rs:1137-1171 | at every point of every life of a job, failed ones included, what its children have really read and parsed together stays within the caps, and a completed job reports exactly this work |
| `ObjectJob.WorkIsAnswers` | pdf-rs/document/src/acquired_object.rs:1505-1672 | over any life of a job the work is what its children answered, poll by poll, under the caps they were given |
| `ObjectJob.PhasesMoveForward` | pdf-rs/document/src/acquired_object.rs:1210-1488 | over any life of a job phases move forward and a finished job stays as it is |
| `ObjectJob.ReadyOnce` | pdf-rs/document/src/acquired_object.rs:1217-1225 | Ready is returned at most once |
| `Alpha.ParseI32` | pdf-rs/content/src/ext_gstate.rs:660-663 | an exponent exactly when it is a signed decimal that fits an i32 |
| `Alpha.PowerOfTen` | pdf-rs/content/src/ext_gstate.rs:665-671 | the power exactly when it fits an i128 |
| `Alpha.DecimalRatio` | pdf-rs/content/src/ext_gstate.rs:610-658 | succeeds exactly on the representable lexemes, with the exact value |
| `Alpha.ParseUnit` | pdf-rs/content/src/ext_gstate.rs:592-608 | succeeds exactly on representable numbers in [0, 1], with 65535 times the number rounded half up |
| `Alpha.RoundsToNearest` | pdf-rs/content/src/ext_gstate.rs:592-608 | rounded half up means the nearest integer, and the greater one when two are nearest |
| `DecimalText.RatioIsWhatIsWritten` | pdf-rs/content/src/ext_gstate.rs:610-658 | the ratio of a constant is the number its digits write |
| `DecimalText.DecimalsAreRatios` | pdf-rs/content/src/ext_gstate.rs:592-658 | nine decimals give that very ratio, and are an alpha constant exactly between zero and one |
| `Alpha.RoundingMonotone` | pdf-rs/content/src/ext_gstate.rs:592-608 | the conversion is monotone, with 0 and 1 at the ends |

## Left out

- Rust memory orderings below sequential consistency, and the poisoning of a mutex by a panic.
- Limit validators, error tables, getters and Debug output.
- Conversions between usize and u64 and checked additions of counters that the limits bound; they cannot fail on a 64-bit host.
- The clone and drop order of shared backings: `Resident` releases a reservation in one step when its last handle goes.
- Resident.RunKeepsInv: a failing supply gives up its lock before it drops what it holds, so that more interleavings are covered than the code has.
- Interleaving.StepSimulates: reservations on the resident tracker are not interleaved with store steps; what the counter showed to a supply is part of `Alloc`, and `Resident` has the interleaving.
- Scanner.Runner.ReserveSlot: element widths and capacities are not modelled, only that growth is retained within the limit; a refusal for retained bytes or allocation is the allocator's choice.
- Scanner.Runner.Scan: source positions attached to errors, and the table of known operators, which is a parameter.
- Scanner.Runner.ValidateLiteral: more than u32::MAX open parentheses end in an internal error, as in the code.
- Scan jobs that run once and stream-order validation in front of the scanner.
- VmPlan.Planner.PlanOperator: guards, operand shapes, conversion, fuel, retention and the Scene are rulings on an operator, one for each stage around the context check and the structural checks.
- VmPlan.Planner.Build: GraphicsVm is its stack of matrices; path, image and colour operators emit painting actions only.
- VmPlan.Planner.Build: guards, retention and Scene arithmetic in the prologue and epilogue of a Form and behind the last operator.
- Glyph outlines, dash conversion, fonts, images, Scene building and nested Form scenes.
- VmExec.TextExecutor.Execute: spacing, leading, rise and the text matrices, which no structural check reads.
- VmSimulation.Materialize: what Scene, image and font building make of an action is one guard per action.
- Growth.SlotVector.ReserveSlot: sums beyond u64, which the code saturates and then refuses.
- ObjectJob.OpenAcquiredObjectJob.Poll: error mapping, retained-component checks and the proof objects are outcomes of the children.
- ExtGState resolution around alpha constants.
- Host input and output, browser platforms, the document catalog and cross-reference jobs.
