# Verified model of the order gateway

This project models, in Dafny, the part of the gateway that decides what happens to an order, and
proves what it promises. `dafny verify dfyconfig.toml` checks the whole of it.

## What is modelled

- **The order-management system** (`src/core/oms.cpp`). `OmsRegistry` holds the state behind the
  lock (orders with their leg tables, the buffers of raced reports, counters, discovery notes, the
  log) and one function per critical section. `OmsMachine` makes each locked region one atomic step,
  keeps venue calls open between steps and lets the steps of all threads interleave freely: place,
  amend and cancel are two sections each, reconcile is a sequence of fragments, execution reports
  arrive at any lock boundary. `Oms` is the object itself, a class whose methods update its fields
  in place and are proved to leave exactly the registry the functions say, log bytes included.
  `OmsCalls` and `Reconciliation` follow one call, lookup, listing or report from its arguments to the
  record, the log and the answer. `OmsTheorems`, `OmsConservation`, `OmsReplay`, `OmsCrash`,
  `LegReplay`, `UnloggedLegs`, `OmsLimits`, `AdoptedFills` and `Audit` are what every interleaving
  keeps, what the log rebuilds, and where the promises stop.
- **The write-ahead log** (`src/core/event_log.cpp`): bytes, torn tails, truncation. The serializer
  is a parameter: any dump without newlines that has a left inverse. `OmsCrash` composes it with
  the registry: a crash interrupts a step at any byte of its writes, and the next process starts
  from what a replay of the cut file delivers.
- **Exact decimals** (`src/core/decimal.cpp`) as (unscaled, scale) with the 64- and 128-bit bounds
  written out: the unchecked cast of the clamped difference, the overflow of the division and that of
  the negation included.
- **Exposure and risk** (`projected_position`, `src/core/risk.cpp`). The order in which the hash map
  is walked is a parameter.
- **Retries** (`src/core/retry.hpp`, `src/core/retry.cpp`) over a world the clock, the random source
  and the attempt pass on, so an adversary may decide all of them. Doubles are reals.
- **Resolve-then-retry** (`binance_resilient.hpp`, `okx_resilient.hpp`): one engine, since both files
  are the same loop, with the two venues' own readings of errors, statuses and values.
  `ResilientOutcomes` says what every sequence of raw answers ends in.
- **Request/response correlation** (`binance_ws_client.cpp`): callers, reader and session ends as a
  step machine with one step per locked region, and the client's shared fields as a class.

The risk verdict is computed in the class and is an arbitrary parameter of the step machine, so the
machine's theorems hold for every verdict. Venue answers, clocks and random draws are parameters.
The outcomes the disk will report for coming appends are a list the log carries; appends past its
end succeed.

## Where the code and its documentation differ

- `src/core/retry.hpp:18-19` gives the backoff before retry k as initial * multiplier^k; the code
  computes multiplier^(k-1), and so does the model. When the two agree: `Retry.BackoffIsDocumentedIff`.
- `src/core/retry.hpp:58-62` gives the jittered range as [raw * (1 - jitter), raw]; truncation to
  whole milliseconds can go below it by less than one. When it does not: `Retry.JitterFloorIff`.
- `src/core/decimal.cpp:209-211` bounds the scaled dividend by 10^16 times a 64-bit value. The power
  is 10^(common - scale + max scale), which the guard lets reach 10^32; from 10^20 on 128 bits
  overflow (`Decimals.EveryDividendFitsIff`, `Decimals.DivCanOverflow`).
- `src/core/oms.cpp:527` calls the record an amend returns to definitely unchanged. A reconcile pass
  that took its worklist earlier, or a cancel sent earlier, can change it meanwhile, and nothing else
  can (`OmsLimits.OpenAmendIsNotIsolated`, `OmsLimits.CancelReachesOpenAmend`,
  `OmsLimits.AmendIsolatedIffNoNews`).
- `README.md:136-138` says a request is re-sent only when the venue conclusively never saw it, so no
  path double-places. That holds when an errored request is already decided by the time it is looked
  up (`ResilientTheorems.PlaceCreatesAtMostOne`). A lookup cannot see a place still on its way: one
  that lands after it and is done before the re-send is placed twice, if the venue takes the id of a
  done order again; one still worked is refused as a duplicate. Over all venues that may be real in
  this sense, exactly the policies that never retry keep the promise
  (`ResilientTheorems.PlacesAtMostOnceIff`).
- `src/exchange/binance/binance_resilient.hpp:308` takes an order carrying the requested values for
  a live replacement. When that is so: `ResilientTheorems.AmendMeansWorkingIff`.
- `src/core/oms.cpp:216-229` reads the parsed fill of a working order without checking that it
  parsed. When it did not, `include/gateway/result.hpp:35-39` asserts, which aborts a debug build, and
  then throws in a release build; the model has the throw. One listing can bring that about
  (`AdoptedFills.AdoptedFillThrows`); only listings can, and exactly those that adopt such a fill
  leave one in the registry (`AdoptedFills.RunFills`).
- `src/core/oms.cpp:195-200` skips a summand that overflows, and the clamped difference wraps; a
  passed position check bounds the exposure up to exactly that (`PositionLimit.PositionCheckPassesIff`,
  `PositionLimit.OverflowHidesExposure`). On the sell side the difference is negated too, and one
  wrapped to the least 64-bit value overflows there, which is undefined (`src/core/decimal.hpp:47-50`,
  `Exposure.RemainderNegatesIff`, `PositionLimit.SellRemainderOverflows`).
- `src/exchange/binance/binance_ws_client.cpp:444-446` counts on a dropped frame's caller having moved
  on. A frame read by the inline clock sync is dropped too, and its caller may still wait
  (`Correlation.ResponseCanBeLost`, `Correlation.TakenIffSynced`).
- `src/core/oms.hpp:56-61` orders the legs by versions 1..N without gaps, the last one current. That
  holds in one process (`Audit.NoVersionGapInProcess`). A leg learned from a report or a lookup is not
  brought back by the log, so the next amend acknowledged with an id leaves a log from which the chain
  comes back with a gap (`LegReplay.AdoptionThenAmendBreaksRestart`). Only such amends do
  (`UnloggedLegs.RestartsStayWholeIffLegsLogged`, `LegReplay.RestartsStayWholeIff`).
- `src/core/oms.cpp:934-951` takes price and quantity from the venue and logs neither, so a restart has
  the older ones until a lookup shows them again; the outcome comes back in any case
  (`OmsReplay.ReplayRefinesRuntime`, `OmsReplay.LookUpReplaysIff`).

## Model

| member | source | states |
|---|---|---|
| OrderLifecycle.CanTransition | src/core/order_state.hpp:35-67 | The scan of the 14-entry table decides exactly the forward-only rule: nothing re-enters pending, nothing leaves a terminal state, a pending order cannot be canceled |
| OrderLifecycle.ReachableIffObservable | src/core/order_state.hpp:35-86 | A state can follow another through some sequence of observations if and only if it is equal or further along: the table has no cycle but its self-loops |
| OrderLifecycle.ObservedOnceIsStale | src/core/order_state.hpp:78-86 | An observation already processed by a non-pending order never moves it again, at any later state |
| Decimals.PowerOfTen | src/core/decimal.cpp:21-28 | The loop computes 10 to the exponent |
| Decimals.Normalize | src/core/decimal.cpp:44-54 | The loop computes the canonical form, zero at scale 0 included |
| Decimals.NormalizedKeepsValue | src/core/decimal.cpp:44-54 | Normalizing keeps the value at every precision and never enlarges the magnitude, so it stays within 64 bits |
| Decimals.CanonicalIsUnique | src/core/decimal.cpp:44-54 | Two canonical decimals of equal value are the same decimal |
| Decimals.CompareIsExact | src/core/decimal.cpp:146-156 | Comparison is comparison of the exact values, at any common precision |
| Decimals.AddIsExact | src/core/decimal.cpp:158-167 | The sum is exact and canonical, and is an error if and only if the aligned sum leaves 64 bits |
| Decimals.SubIsExact | src/core/decimal.cpp:169-178 | The same for the difference |
| Decimals.SubClampedZeroIsExact | src/core/decimal.cpp:180-188 | The clamped difference is max(0, a - b) if and only if the aligned difference is within 64 bits; past that the unchecked cast wraps |
| Decimals.MulIsExact | src/core/decimal.cpp:190-198 | The product is exact at the sum of the scales, and is an error if and only if it leaves 64 bits |
| Decimals.DivIsNearest | src/core/decimal.cpp:200-232 | An error for a zero divisor or a precision outside 0..16; else undefined if and only if a 128-bit intermediate overflows; else the quotient is the one decimal of max-scale digits within half a unit of the true quotient, ties away from zero, and is an error if and only if that leaves 64 bits |
| Decimals.RoundingIsUnique | src/core/decimal.cpp:219-225 | At most one integer is the half-away rounding of a quotient |
| Decimals.DivStaysIn128Bits | src/core/decimal.cpp:209-225 | For 64-bit operands of at most 16 digits nothing overflows if and only if the scaled dividend fits, which it does whenever it is scaled by at most 10^19 |
| Decimals.EveryDividendFitsIff | src/core/decimal.cpp:209-215 | 10^19 is the exact bound: a scaling keeps every 64-bit dividend within 128 bits if and only if it is at most that |
| Decimals.DivCanOverflow | src/core/decimal.cpp:205-215 | Operands the guard admits and that overflow: the largest value by 10^-8 at 12 digits |
| Decimals.AlignedStaysIn128Bits | src/core/decimal.cpp:30-37 | For 64-bit operands of at most 16 digits aligning, adding and subtracting stay in 128 bits |
| DecimalText.ScanBody | src/core/decimal.cpp:81-122 | The one-pass scan accepts exactly the grammar (digits, optionally a dot and one to eight digits) and yields its magnitude, or nothing when that exceeds 64 bits |
| DecimalText.ParseSignedDecimal | src/core/decimal.cpp:71-122 | The parser computes the canonical meaning of the text, sign included |
| DecimalText.DecimalToString | src/core/decimal.cpp:124-144 | The printer pads, splits and signs as the text of the decimal says |
| DecimalText.PrintParseRoundTrip | src/core/decimal.cpp:71-144 | Parsing what was printed returns the decimal for every canonical one of at most 8 digits, except the least 64-bit value, which the parser rejects |
| EventLogs.EventLog.Append | src/core/event_log.cpp:21-33 | One whole line, or an error and no line |
| EventLogs.EventLog.Replay | src/core/event_log.cpp:35-91 | Delivers every terminated line in order, truncates a torn tail to the last accepted line, fails on a terminated line that does not parse |
| EventLogs.CompleteLinesIsMaximal | src/core/event_log.cpp:53-73 | The number of events said to survive a cut is the largest whose lines fit in it |
| EventLogs.ScanOfCut | src/core/event_log.cpp:53-80 | Scanning from a line start reads back exactly the whole lines of a cut file |
| EventLogs.CrashPrefixRecovery | src/core/event_log.cpp:21-91 | A log cut at any byte replays exactly the events whose lines are whole, leaves a file that is the log of those events, and replays them again with no torn tail |
| EventLogs.DurablePrefixSurvives | src/core/event_log.cpp:21-91 | A cut that keeps the bytes of a prefix of the events keeps those events |
| EventLogs.RescanIsClean | src/core/event_log.cpp:53-89 | For any file a replay accepts, replaying what it left delivers the same events and finds nothing torn |
| OrderRecords.LegIndexOf | src/core/oms.cpp:708-718 | The newest leg carrying the id, and whether that leg is superseded |
| OrderRecords.FillAdvancesIffGreater | src/core/oms.cpp:639-650 | A reported fill moves the mark if and only if both texts parse and the reported value is exactly greater |
| OrderRecords.ArbitrateIsLater | src/core/oms.cpp:743-785 | One report, whatever it says, only moves the record forward: state, fill, rejection, leg prefix and leg chain |
| OrderRecords.OldLegsNeverDrive | src/core/oms.cpp:761-785 | Once a fresh id is the newest leg, any later reports leave state, legs, price, quantity and rejection as if the older legs' reports had never come |
| OrderRecords.EveryFillCounts | src/core/oms.cpp:631-671 | The fill ends at the maximum over all reports, those of superseded legs included |
| OrderRecords.LostAckKeepsReplacementIffAlone | src/core/oms.cpp:536-563 | After a lost amend ack the id picked as the live replacement is still current once the buffered batch is applied if and only if the batch shows no other unknown id |
| OrderRecords.LateDuplicateChangesNothing | src/core/oms.cpp:743-785 | A report processed by a non-pending order changes nothing at any later record, if and only if it is not revived: its superseded id made current since, and its state still a legal step |
| OmsRegistry.PlaceStage | src/core/oms.cpp:250-338 | A place is sent only for an unknown id, with exactly that record staged and a buffer opened; otherwise nothing is buffered and at most a rejected record is added |
| OmsRegistry.AmendStage | src/core/oms.cpp:459-521 | An amend is sent only for a known, non-pending order without an open call; it opens the buffer and changes nothing else; a refusal changes nothing |
| OmsRegistry.PlaceAcked | src/core/oms.cpp:376-390 | The acked record, then the raced reports in arrival order, unless the append after the ack fails |
| OmsRegistry.AmendAcked | src/core/oms.cpp:566-586 | The amended record, then the raced reports in arrival order, unless the append after the ack fails |
| OmsRegistry.AmendFailed | src/core/oms.cpp:532-564 | The newest unknown buffered id is adopted before the batch is applied |
| OmsMachine.StagePlaceKeepsInv | src/core/oms.cpp:250-338 | Staging a place keeps who owns which order and adds at most one sound record |
| OmsMachine.FinishPlaceKeepsInv | src/core/oms.cpp:369-391 | Every venue answer to a place keeps it and moves only that order, forward |
| OmsMachine.FinishAmendKeepsInv | src/core/oms.cpp:524-587 | Every venue answer to an amend keeps it and moves only that order, forward |
| OmsMachine.FinishCancelKeepsInv | src/core/oms.cpp:428-450 | Every venue answer to a cancel keeps it, though a cancel ignores the report buffers |
| OmsMachine.ReportKeepsInv | src/core/oms.cpp:787-816 | Every execution report at any lock boundary keeps it |
| OmsMachine.ListAllSparesOpen | src/core/oms.cpp:864-906 | A venue listing changes no order with an open place or amend |
| OmsMachine.LookUpKeepsInv | src/core/oms.cpp:932-980 | A reconcile lookup, which does not consult the buffers again, keeps it and moves the order only forward |
| Reconciliation.LookUpDoesWhatTheVenueSays | src/core/oms.cpp:932-980 | A lookup's answer taken in field by field: the venue's word that the order is unknown rejects one that has not ended, every other error leaves the whole registry, and a snapshot sets price and quantity where given, the larger fill with its average price, a legal state and an unknown id, and exactly a change is logged |
| Reconciliation.RejectedAsAbsentIff | src/core/oms.cpp:953-979 | A worklist order that has not ended is rejected as absent if and only if the answer is an empty success or the error venue:51603 or venue:51016 |
| Reconciliation.TakenUpIff | src/core/oms.cpp:909-918 | A pass takes up an order if and only if it is pending, live or partially filled and no place or amend of it is open |
| Reconciliation.PassRejectsIff | src/core/oms.cpp:909-979 | A pass at a venue that knows nothing leaves an order rejected if and only if it was, or is one of those |
| Reconciliation.ListingDoesWhatTheVenueShows | src/core/oms.cpp:864-906 | In a whole listing under one lock every listed order without a buffer is adopted with the terms shown, or taken in field by field if known |
| Reconciliation.DeliveryDoesWhatTheReportSays | src/core/oms.cpp:743-816 | A report is buffered, counted unknown, or taken in: its fill whatever leg it names, its state unless it names an older leg, its id if no leg has it, never price or quantity; logged and counted as applied if and only if state or fill moved |
| OmsMachine.StepKeepsInv | src/core/oms.cpp:244-983 | Any step of any thread keeps the invariant and moves orders only forward |
| OmsMachine.RunsOnlyMoveForward | src/core/oms.cpp:244-983 | Monotone lifecycle over whole runs: no interleaving forgets an order, leaves a terminal state, moves a state back, lowers a fill, drops a leg, breaks a leg chain or changes a recorded rejection |
| OmsTheorems.ReachableInv | src/core/oms.cpp:244-983 | In every state reached in one process every leg table is a chain 1..N ending in the current id, both empty together, every placed order's fill parses, and every buffered report is for its order |
| OmsTheorems.OpenPlaceIsolation | src/core/oms.cpp:250-378 | In every reachable state an order has a buffer if and only if exactly one place or amend is open for it, and an open place's record is exactly as staged |
| OmsTheorems.KnownIdsNeverResend | src/core/oms.cpp:254-262 | After any run a known id is never sent again, and a rejected one answers with the same rejection for ever |
| OmsTheorems.PlacedMeansRecorded | src/core/oms.cpp:376-391 | An acknowledged place is on record as leg 1 under the venue's id, past pending, with its staged terms, whatever reports raced the ack |
| OmsTheorems.AmendedMeansRecorded | src/core/oms.cpp:566-587 | An acknowledged amend leaves the requested price and quantity and the next leg version, whatever reports raced it |
| OmsTheorems.CanceledMeansOver | src/core/oms.cpp:437-450 | An acknowledged cancel ends a working order and leaves one that ended first as it ended |
| OmsTheorems.LateDuplicatesAreStale | src/core/oms.cpp:743-811 | A report processed directly by a non-pending order can come again at any later point of any run: no record changes, nothing is logged, it counts as stale, if and only if its superseded id has not been reissued for a legal step |
| OmsTheorems.DrainedDuplicateChangesNothing | src/core/oms.cpp:743-785 | A report applied out of a drained batch to a record no longer pending changes nothing at any later record, if and only if it is not revived |
| OmsTheorems.DrainedDuplicatesAreStale | src/core/oms.cpp:340-391 | The same over any run for reports buffered under a place or an amend and applied when the venue answered |
| OmsTheorems.AmendedLegsDriveAlone | src/core/oms.cpp:566-586 | After an acked amend with a new id, whatever reports follow, older legs contribute fills only and the fill is the maximum over all |
| OmsTheorems.AdoptedLegDrivesAlone | src/core/oms.cpp:532-564 | The same after a lost amend ack, for the legs before the adopted one |
| OmsTheorems.BufferingIsInvisible | src/core/oms.cpp:731-799 | Reports that race an acked place or amend have the effect they would have had arriving, in order, right after the ack |
| OmsCalls.PlaceIsDecided | src/core/oms.cpp:250-338 | Which place answers from the record, is refused without a trace, is on record as exactly the verdict, fails with the log, or is sent; a record, its intent and its rejection carry the request's own terms, "GTC" and the default venue where none is given |
| OmsCalls.PlaceStaysAsRequested | src/core/oms.cpp:250-378 | A thread's place is sent if and only if the id is unknown, the venue there, the limits agree and the intent is logged; over any steps until the venue answers the record is as requested and untouched |
| OmsCalls.PlaceDoesWhatWasAsked | src/core/oms.cpp:341-391 | From the request to the answer, over any interleaving: an ack leaves record, answer and accepted event with the request's terms, past pending, leg 1 under the venue's id; a definitive venue error is the rejection on record, logged and answered; transport leaves the order as staged unless reports raced it |
| OmsCalls.CancelIsDecided | src/core/oms.cpp:400-426 | A cancel is sent if and only if the id is known, the order live or partially filled and its venue connected; a canceled one answers with its record; every other case has its own error; the registry stays |
| OmsCalls.CancelDoesWhatWasAsked | src/core/oms.cpp:394-450 | A thread's cancel opens a call in exactly those states; acknowledged after any interleaving it leaves the order ended, canceled unless it had ended otherwise by then, and an error answers as it came with nothing changed |
| OmsCalls.AmendIsDecided | src/core/oms.cpp:459-521 | An amend is sent if and only if the id is known, the order live or partially filled, its venue connected, the limits agree and no call on it is open, with the values asked for and, where none is asked for, those on record; each other case has its own error |
| OmsCalls.AmendDoesWhatWasAsked | src/core/oms.cpp:453-588 | Across both sections and any interleaving: an ack leaves price and quantity as asked for (those on record at the stage where not), the next leg under the new id, and an amended event saying so; a failed amend leaves both as they are and makes the last unknown id among the raced reports the next leg |
| OmsConservation.ReportsAreConserved | src/core/oms.cpp:731-811 | Over every run from a balanced state delivered reports = unknown + applied + stale + buffered + dropped |
| OmsConservation.EveryReportIsAccountedFor | src/core/oms.cpp:731-811 | That balance in every state reached from an empty log, and nothing is dropped if and only if no place ended in an error other than transport, and no append after an ack failed, over buffered reports |
| OmsLimits.OpenAmendIsNotIsolated | src/core/oms.cpp:527-530 | The record an amend comes back to can have changed: a run in which reconcile rejects the order while its amend is open |
| OmsLimits.CancelReachesOpenAmend | src/core/oms.cpp:428-450 | And a run in which a cancel ends it |
| OmsLimits.OpenAmendChangesIff | src/core/oms.cpp:469-530 | While an amend stays open a step changes its order if and only if it is a lookup of a worklist the order is on, or an acknowledged cancel of it, whose answer has news |
| OmsLimits.AmendIsolatedIffNoNews | src/core/oms.cpp:469-530 | Over any run an amend stays open its record stays as it was, after every step, if and only if no such answer comes |
| OmsReplay.StateEventReplays | src/core/oms.cpp:1109-1131 | Replaying a state event reproduces any single observation's state, fill, average price and rejection |
| OmsReplay.StepRefines | src/core/oms.cpp:244-983 | Every critical section logs what it does: replay still agrees with the registry after it |
| OmsReplay.ReplayRefinesRuntime | src/core/oms.cpp:995-1132 | After every interleaving without a failed append, replaying the log from nothing gives exactly the live orders, each with the live identity, state, fill, average price and rejection |
| OmsReplay.BirthsBringBack | src/core/oms.cpp:995-1095 | An intent, an accepted place and an adoption, written and replayed, bring back the order with its terms, first leg and state, and touch no other |
| OmsReplay.ChangesBringBack | src/core/oms.cpp:1096-1132 | Of a known order an amendment brings back its values, id and leg, and a state an id where none is on record, as the next leg; neither touches another order |
| OmsReplay.ReplayRestoresTerms | src/core/oms.cpp:995-1132 | Price and quantity come back too, over every run in which lookups and listings show those on record |
| OmsReplay.LookUpReplaysIff | src/core/oms.cpp:932-980 | What a lookup teaches of price and quantity is not logged: after one the log brings back the terms of an order not rejected if and only if the venue showed those on record |
| OmsCrash.RestartRecovers | src/core/event_log.cpp:53-91 | A restart reads back a prefix of the events written, and all of those synced before a crash that keeps their bytes |
| OmsCrash.DurableRestartKeepsOutcomes | src/core/oms.cpp:985-1132 | A durable crash between log writes brings back every order with its outcome |
| OmsCrash.ReplayRefinesAcrossCrashes | src/core/oms.cpp:985-1132 | Replay agrees with the registry over any run with crashes at any log byte, durable or not |
| OmsCrash.SentAtMostOnce | src/core/oms.cpp:308-338 | Over any run with durable crashes and restarts no client order id is handed to a connector's place twice |
| OmsCrash.ForgottenIdIsSentTwice | src/core/oms.cpp:308-338 | If the crash takes the synced intent, or there is no log, the same place is sent twice |
| OmsCrash.SentAtMostOnceIffLogged | src/core/oms.cpp:254-338 | With a venue to place on, every durable run sends each id at most once if and only if the log is on |
| Oms.ObserveFill | src/core/oms.cpp:639-650 | The fill half of an observation, and whether it changed anything |
| Oms.ObserveLifecycle | src/core/oms.cpp:652-669 | The lifecycle half, changed if and only if the record differs |
| Oms.FindNewestUnknown | src/core/oms.cpp:543-550 | The last buffered id no leg knows |
| Oms.OrderManagementSystem.AppendOrError | src/core/oms.cpp:181-187 | One event appended to the file and the log's events, or an error and neither |
| Oms.OrderManagementSystem.AppendEvent | src/core/oms.cpp:171-179 | The same, failures counted |
| Oms.OrderManagementSystem.LoadFromLog | src/core/oms.cpp:985-993 | From any file, or none: the registry of its whole lines, an error if and only if a terminated line does not parse, and otherwise a file that scans clean to the same events |
| Oms.LoadingIsRebooting | src/core/oms.cpp:985-993 | What is loaded from a log cut at any byte is the registry a restart begins with |
| Oms.OrderManagementSystem.ApplyLogEvent | src/core/oms.cpp:995-1132 | One event replayed into the registry |
| Oms.OrderManagementSystem.ApplyObservation | src/core/oms.cpp:631-671 | The record after the observation, and whether it differs |
| Oms.OrderManagementSystem.NoteDiscoveredLeg | src/core/oms.cpp:720-729 | The newest 256 discoveries are kept |
| Oms.OrderManagementSystem.AdoptUnknownLeg | src/core/oms.cpp:701-706 | The leg, the counter and the note |
| Oms.OrderManagementSystem.DrainRacedReports | src/core/oms.cpp:731-741 | The buffer is returned and gone |
| Oms.OrderManagementSystem.ApplyReport | src/core/oms.cpp:743-759 | Backfill, observe, then count and log |
| Oms.OrderManagementSystem.ApplyArbitratedReport | src/core/oms.cpp:761-785 | The whole registry after one arbitrated report |
| Oms.OrderManagementSystem.OnExecutionReport | src/core/oms.cpp:787-816 | Buffered, unknown, or applied |
| Oms.OrderManagementSystem.CheckCandidate | src/core/oms.cpp:287-297 | The pre-trade verdict on the exact candidate over the registry; it does not end if and only if limits are set and a fill that did not parse is read, which throws, or a negation leaves 64 bits, which is undefined |
| Oms.OrderManagementSystem.PlaceStage | src/core/oms.cpp:250-338 | The whole registry and decision after place's first critical section, which does not end if and only if the verdict on a new order does not; a throw leaves everything as it was |
| Oms.OrderManagementSystem.PlaceFinish | src/core/oms.cpp:369-391 | The whole registry and answer after its second |
| Oms.OrderManagementSystem.CancelStage | src/core/oms.cpp:399-422 | The decision, registry untouched |
| Oms.OrderManagementSystem.CancelFinish | src/core/oms.cpp:428-450 | The whole registry and answer after a cancel's venue call |
| Oms.OrderManagementSystem.AmendStage | src/core/oms.cpp:459-521 | The whole registry and decision after amend's first critical section, which does not end if and only if the verdict on an amendable order does not; a throw leaves everything as it was |
| Oms.OrderManagementSystem.AmendFinish | src/core/oms.cpp:527-588 | The whole registry and answer after its second |
| Oms.OrderManagementSystem.ReconcileListing | src/core/oms.cpp:867-905 | The registry after one venue's listing, order by order |
| Oms.OrderManagementSystem.ReconcileWorklist | src/core/oms.cpp:920-929 | Exactly the non-terminal orders without an open place or amend |
| Oms.OrderManagementSystem.ReconcileAnswer | src/core/oms.cpp:932-980 | The registry after one lookup's answer |
| Exposure.ProjectedPosition | src/core/oms.cpp:189-242 | The text of the signed sum over the orders in the order walked, then the candidate; there is one if and only if every working order's fill that is read parsed and no negation of a remainder leaves 64 bits |
| Exposure.AddInIsExactIffFits | src/core/oms.cpp:195-200 | A summand is counted exactly if and only if the aligned sum stays within 64 bits, and else lost whole |
| Exposure.RemainderAccounts | src/core/decimal.cpp:180-188 | A remainder is short by what the unchecked cast takes, which is nothing if and only if it fits 64 bits at its scale |
| Exposure.RemainderNegatesIff | src/core/decimal.hpp:47-50 | Negating a remainder overflows 64 bits if and only if the aligned remainder is positive and 2^63 modulo 2^64 |
| Exposure.WalkOrderIsIrrelevant | src/core/oms.cpp:205-230 | The exact sum does not depend on the order the hash map is walked in |
| Exposure.ProjectionAccounts | src/core/oms.cpp:189-242 | For every walk: undefined if and only if a negation overflows, and else the exact signed sum less exactly what was skipped or wrapped, so it is exact if and only if that cancels out |
| Exposure.ProjectionIsExact | src/core/oms.cpp:189-242 | When no aligned sum or difference of a walk overflows no negation does, and the projection is the exact signed sum and reads back as it, but for the least 64-bit value |
| Exposure.SmallStakesFit | src/core/oms.cpp:189-242 | No walk overflows while all stakes together fit 64 bits at 10^-8 |
| Risk.RiskAcceptsIff | src/core/risk.cpp:93-162 | An order passes if and only if its quantity parses and every configured limit holds of the exact quantity, the exact notional and the exact magnitude of the position |
| Risk.RefusalNamesTheFirstBreach | src/core/risk.cpp:93-162 | A refusal carries the code of the first limit broken, in the order quantity, notional, position, or of a value that is no decimal where one is needed |
| Risk.ProductOfValues | src/core/risk.cpp:124-134 | The product of two scaled values is the exact product of the numbers |
| PositionLimit.PlaceChecksWhatItStages | src/core/oms.cpp:287-337 | The value place checks is the exposure of the registry right after the order is staged |
| PositionLimit.AmendChecksTheNewQuantity | src/core/oms.cpp:486-500 | The value amend checks is the exposure with the new quantity in place of the old |
| PositionLimit.PositionCheckPassesIff | src/core/risk.cpp:143-160 | Unless a negation overflows, the position check passes if and only if the exact position, less what the sum left out, is within the limit and is not the least 64-bit value |
| PositionLimit.PassedCheckBoundsExposure | src/core/risk.cpp:143-160 | Unless a negation overflows, a passed maxPosition check bounds the position up to what the sum left out; when no aligned sum or difference overflows no negation does and nothing is left out |
| PositionLimit.SentOrdersRespectTheLimit | src/core/oms.cpp:282-337 | Once a place is sent under a maxPosition and no negation overflowed, the exposure of the registry that now holds it is within the limit up to what the sum left out |
| PositionLimit.OverflowHidesExposure | src/core/oms.cpp:195-200 | What is left out can be all that matters: an overflowing candidate passes a limit the exposure breaks |
| PositionLimit.SellRemainderOverflows | src/core/oms.cpp:201-229 | The input on which a negation overflows: a working sell order of 92233720369 filled to 0.45224192 |
| PositionLimit.FillsConserveExposure | src/core/oms.cpp:189-242 | Any batch of reports that fills an order within its quantity leaves the exposure unchanged |
| PositionLimit.EndingReleasesTheRest | src/core/oms.cpp:216-229 | Ending an order early releases exactly its outstanding quantity |
| AdoptedFills.StepFills | src/core/oms.cpp:864-906 | After any step every fill parses if and only if every one did before and the step adopted none that does not |
| AdoptedFills.RunFills | src/core/oms.cpp:864-906 | The same over whole runs |
| AdoptedFills.ProjectionNeverThrows | src/core/oms.cpp:205-230 | At every point of every run whose listings adopt no such fill, the projection of every symbol can be read |
| AdoptedFills.AdoptedFillThrows | src/core/oms.cpp:224-227 | One listing, from nothing, after which the projection reads a fill that did not parse |
| Audit.AuditRecordLocal | src/core/oms.cpp:1134-1179 | A version gap alert if and only if the versions are not 1..N, another if and only if the newest leg is not current, a fill mismatch if and only if the exact fill and the state disagree about completion |
| Audit.NoVersionGapInProcess | src/core/oms.cpp:1134-1156 | In every state reached in one process no order raises a version gap |
| LegReplay.ReplayIsGaplessIff | src/core/oms.cpp:995-1107 | For any log: an order comes back with versions 1..N if and only if its last birth in the log carries at most version 1 and each amend since a version at most one past the legs replayed before it |
| LegReplay.EveryPrefixWholeIff | src/core/oms.cpp:995-1131 | For any log: all its prefixes bring back whole chains, versions 1..N and the newest leg current, if and only if each event is in order with the prefix before it |
| LegReplay.EveryRestartWholeIff | src/core/oms.cpp:985-1132 | Wherever a crash cuts the log the next process has whole chains, if and only if the log is in order |
| LegReplay.StepInOrderIff | src/core/oms.cpp:244-983 | A step leaves the log in order if and only if it was and the step is not an acknowledged amend whose version does not fit what the log shows |
| LegReplay.RestartsStayWholeIff | src/core/oms.hpp:56-61 | Over any run with crashes at any byte, every restart at every point has whole chains if and only if no acknowledged amend that is kept has a version that does not fit the log |
| UnloggedLegs.StepTold | src/core/oms.cpp:244-983 | Whatever a step appends is about an order there is then, and names no leg it does not have |
| UnloggedLegs.RestartsStayWholeIffLegsLogged | src/core/oms.hpp:56-61 | From an empty log, over any run with crashes at any byte and acks that carry ids: every restart at every point has whole chains if and only if no amend that is kept was acknowledged over a leg that had been learned and that the log did not bring back |
| LegReplay.AdoptionThenAmendBreaksRestart | src/core/oms.cpp:1096-1107 | From an empty log: a report under an unknown id, an acknowledged amend and a durable crash, and the next process has a version gap |
| Retry.BackoffFor | src/core/retry.cpp:113-126 | The loop computes the capped power, early exit included |
| Retry.BackoffGrows | src/core/retry.cpp:113-126 | Backoffs start at the initial one, never shrink and never exceed the cap |
| Retry.BackoffIsDocumentedIff | src/core/retry.hpp:18-19 | The code agrees with the documented power for every retry if and only if the multiplier is 1, the initial backoff is 0 or the initial backoff is the cap |
| Retry.DefaultBackoffDiffers | src/core/retry.hpp:18-29 | The default policy waits 100 ms before its first retry where 200 are documented |
| Retry.JitterBounds | src/core/retry.cpp:128-135 | The jittered delay is within 0 and the raw one, and less than a millisecond below raw * (1 - jitter) |
| Retry.JitterFloorIff | src/core/retry.hpp:58-62 | The documented lower end of the range holds for every draw if and only if a whole millisecond lies between raw * (1 - jitter) and raw * (1 - 0.999999 * jitter) |
| Retry.JitterFloorFails | src/core/retry.hpp:58-62 | A draw below the documented range |
| Retry.WithRetries | src/core/retry.hpp:75-98 | The loop makes exactly the attempts, sleeps and answer of its recursive specification |
| Retry.Turn | src/core/retry.hpp:75-98 | One turn of the loop: what one more attempt makes of the world, when there is another and exactly how long the sleep before it is |
| Retry.LastingFailureSleeps | src/core/retry.hpp:75-98 | A failure that lasts, without jitter and with a budget for it, costs all attempts and exactly the backoffs of retries 1 to max - 1 |
| Retry.AttemptsAreBounded | src/core/retry.hpp:75-98 | Attempts lie in 1..max and the answer is an attempt's own, if at least one is allowed; else nothing is attempted and the fall-through error is the answer |
| Retry.SleepFitsBudget | src/core/retry.hpp:86-95 | For any monotone clock the sleep asked for never exceeds the budget |
| Resilient.ValueMatchesIffEqual | src/exchange/binance/binance_resilient.hpp:27-38 | Two texts that parse match if and only if their exact values are equal |
| Resilient.LookUp | src/exchange/okx/okx_resilient.hpp:38-69 | The lookup loop computes its specification |
| Resilient.ResilientCall | src/exchange/binance/binance_resilient.hpp:169-210 | The verb's loop computes its specification |
| ResilientTheorems.ResendsFollowAbsence | src/exchange/okx/okx_resilient.hpp:89-126 | Whatever network and venue do, each place sent after the first directly follows a lookup that answered absent |
| ResilientTheorems.PlaceCreatesAtMostOne | src/exchange/binance/binance_resilient.hpp:169-210 | Against a truthful venue whose errored requests are decided, a whole call creates at most one order, and success means one exists |
| ResilientTheorems.LateLandingPlacesTwice | src/exchange/binance/binance_resilient.hpp:186-203 | At a venue that may be real and with any policy that allows a retry, a place that lands and is done after its lookup creates two orders though every answer was true when given |
| ResilientTheorems.UnretriedIsSentOnce | src/core/retry.hpp:75-98 | Without a second attempt or a budget there is exactly one send, for any network whose clock does not run backwards |
| ResilientTheorems.PlacesAtMostOnceIff | README.md:133-138 | A call adds at most one order at every venue that may be real (places add at most one and may land late, answers are true when given, ids at work are refused, the clock runs) if and only if the policy never retries |
| ResilientTheorems.CallsAreBounded | src/exchange/okx/okx_resilient.hpp:61-125 | At most max sends and max squared lookups |
| ResilientTheorems.SuccessIsGrounded | src/exchange/binance/binance_resilient.hpp:169-335 | A verb succeeds only on its own acknowledgement or on a convincing lookup, and returns at once |
| ResilientTheorems.CancelIsSound | src/exchange/binance/binance_resilient.hpp:219-272 | A successful cancel means the order is canceled at the venue, over every schedule of losses |
| ResilientTheorems.AmendIsSound | src/exchange/okx/okx_resilient.hpp:188-234 | A successful amend means the order carries every requested value when the deciding answer is given |
| ResilientTheorems.AmendedWorks | src/exchange/binance/binance_resilient.hpp:303-309 | Success means a working order wherever no lookup can show one that carries the requested values and no longer works |
| ResilientTheorems.AmendMeansWorkingIff | src/exchange/binance/binance_resilient.hpp:303-309 | For any set of orders a venue may show: a successful amend means a working order at every honest venue showing only those, if and only if every order in the set that carries the requested values works |
| ResilientTheorems.AmendedMayBeCanceled | src/exchange/binance/binance_resilient.hpp:303-309 | In particular an order canceled with the requested values is a successful amend |
| ResilientOutcomes.CallsFollowTheTables | src/exchange/binance/binance_resilient.hpp:46-335 | Against any network and venue and for every verb, what goes over the wire is a sequence of attempts, each ended as a table over the raw send and lookup answers says (an ack, which error, or a re-send), the call answers as the last one ends, and a re-send is left undone only when attempts or budget are used up |
| ResilientOutcomes.FirstAnswersDecide | src/exchange/okx/okx_resilient.hpp:89-234 | Asked of the network alone: a first send, or a first lookup after it, that the tables call final gives the call's answer, with nothing more on the wire: an acknowledged send, any other error than transport or a duplicate, a found order, an order shown canceled, one with the requested values |
| ResilientOutcomes.SucceedsIff | src/exchange/binance/binance_resilient.hpp:169-335 | A call succeeds if and only if the last act on the wire is an ack or a lookup showing what the verb wants, with that act's ids, and no such act is ever followed by another |
| Correlation.StepKeepsInv | src/exchange/binance/binance_ws_client.cpp:157-585 | Any step of any caller or of the reader, its inline clock sync included, keeps the correlation invariant |
| Correlation.IdsAreNeverReused | src/exchange/binance/binance_ws_client.cpp:169-178 | No two calls and no two mailboxes ever carry the same request id |
| Correlation.ResponsesMatchTheirRequests | src/exchange/binance/binance_ws_client.cpp:426-443 | A mailbox is completed at most once, by the message with its id or by the loss of the session, and an answered call returns its own response |
| Correlation.WokenCallEnds | src/exchange/binance/binance_ws_client.cpp:205-230 | A call that wakes answers with the message in its mailbox, is lost if the mailbox was failed, has timed out if it is empty, whatever comes in after, and its request leaves the table |
| Correlation.UnsentCallEnds | src/exchange/binance/binance_ws_client.cpp:180-204 | A frame no connection takes ends the call unsent with its request off the table; one that is taken leaves the call waiting in that session |
| Correlation.TakenMessageIsDelivered | src/exchange/binance/binance_ws_client.cpp:426-443 | The message read for a waiting call is the one its mailbox is filled with |
| Correlation.TakenIffSynced | src/exchange/binance/binance_ws_client.cpp:301-328 | In every reachable state a message for a call that still waits is taken for it if and only if the session is past its clock sync, which drops it |
| Correlation.ResponseCanBeLost | src/exchange/binance/binance_ws_client.cpp:301-328 | A run in which a call sent during the clock sync is answered, loses the answer and times out |
| Correlation.DeadSessionsLeaveNothingPending | src/exchange/binance/binance_ws_client.cpp:577-585 | After a session ends every call whose frame went out in it has been answered, failed or has stopped waiting, and none is left on the table |
| Correlation.WsClient.DispatchMessage | src/exchange/binance/binance_ws_client.cpp:426-447 | Takes and fills the mailbox with the message's id, or drops the message |
| Correlation.WsClient.InlineTimeSync | src/exchange/binance/binance_ws_client.cpp:301-328 | Takes an id and one frame, and forgets the frame |
| Correlation.WsClient.FailAllPending | src/exchange/binance/binance_ws_client.cpp:331-347 | Everything on the table is taken at once and failed one by one, in whatever order |

## Left out

- REST routes, HTTP status mapping, the gateway's main program and the user interface: wiring.
- Transports, TLS, signing, ping watchdogs, thread joins: venue answers are arbitrary instead.
- Configuration parsing, JSON field access, wire builders and parsers, venue state maps, symbol
  translation: table lookups and field checks that would add easy members.
- Latency stamps, `get_price`, `query`, the sorting of `all_orders`, `stats`: no state of interest.
- The audit against venue snapshots (`src/core/oms.cpp:1181-1300`) and the counters of a reconcile
  report: they change no order.
- The wording of error messages beyond their code, except where the code itself searches a message.
- Events without a leg version, written by older releases, and log lines that parse as JSON but not
  as an event: replay is stated for logs this code writes.
- EventLogs.EventLog.Append: does not model a failing stream that leaves part of a line behind, nor
  an append after one; it writes its whole line or nothing, and a crash may cut the last line anywhere.
- Log files that are missing, cannot be opened or cannot be truncated: startup errors.
- The fields of venue acknowledgements beyond the order ids.
- The clock-skew retry of signed calls and the contents of user-data events.
- Which orders a reconcile pass looks up, and when: any order that was ever on a worklist may be
  looked up at any later time and any number of times, which covers what the passes do.
- `Resilient.SendOnce` and `Resilient.LookOnce`: the attempts handed to the retry loop are functions of
  the world; the flag the source captures and resets in each attempt is their third result.
- `OmsCrash.SentAtMostOnce` counts what the registry hands to a connector; what the connector then
  sends is `ResilientTheorems`.
- Widths of counters, of time points and of the converted backoff: unbounded integers.
