# A Dafny model of FastMM's replay, accounting and wire-format code

The project models the parts of FastMM whose correctness is a statement about whole inputs, whole files
or whole sessions, and proves those statements for every input:

- **Order books from ITCH** (`Itch`, `ReferenceBook`, `QueueRules`, `QueueTruth`, `QueueFollower`,
  `QueueSafety`, `QueueSound`, `QueueTallies`, `QueueRuns`, `QueuePriority`, `QueueLevels`, `QueueFills`,
  `QueueScorer`). The queue-truth scorer follows
  resting orders through a TotalView-ITCH stream with four coupled structures (orders, levels, lists of
  living followers, follower records) and scores five queue models against what really happened. The
  reference book of the L3 replay builds the same levels a second way. `QueueTruth` is the scorer as a
  function of its state; the class `QueueScorer.Scorer` is the imperative program, proved equal to it. What
  holds on *any* stream (`Safe`), on streams a book accepts (`Sound`) and of the tallies (`Counted`) are
  three invariants; `QueueRuns` draws the whole-run theorems from them, and `QueuePriority` says when the
  models are exact, `QueueLevels` ties the proportional model to the level it watches, and `QueueFills`
  accounts for every entry of the fill list.
- **Generated streams** (`ItchStream`, `ItchMerge`): for every sequence of random draws the generator's
  streams are valid and end with an empty book, alone and interleaved.
- **Fixed point** (`FixedPoint`): the compiled two-step 64-bit division against the exact definition.
- **Journal** (`Crc32c`, `Journal`, `Executions`): checksum, framing, two readers, truncation, replays.
- **Accounting** (`PnlBooks`, `InstrumentBooks`, `ReplayBoard`, `BoardAccounts`): average cost against cash
  flow, the books of a journal with their hour buckets, the bar-by-bar score, and all three as one. Money is
  `real`.
- **Generators, layouts, printers, parsers** (`SyntheticData`, `SbeLayout`, `SbeBlocks`, `SbeGroups`,
  `Digits`, `Decimals`, `CsvFields`).

`Arith`, `Sums`, `Sequences`, `Wrappers` and `LittleEndian` hold what the modules share: division, finite
sums, lists without repeats, optional values and the byte order of the wire formats.

Code that updates things in place is a class or a method with loops here; each such method is proved
against a function of its inputs or of the old state, and the theorems are about that function. Random
draws are arbitrary choices, so a statement about a generator holds for every seed.

## Where the code and its documentation part

- **An execution of 0 shares** ends the whole order in the reference book and does nothing in the scorer.
  `QueueRuns.StepAgreesIff` gives the exact condition under which the two books agree after a message.
- **Base-fee sells.** `tools/pnl_report.py` states the rule that a commission in base units leaves the
  inventory; `python/fastmm/report.py` adds it on a sell. `PnlBooks.AverageCostIsCashFlow` gives the
  difference exactly, whatever the sign of the fee; `PnlBooks.AgreeThroughoutIff` says that the reports agree
  throughout a session exactly when no sell pays or earns a base commission, `PnlBooks.AgreeAtEveryMarkIff`
  when they agree at its end, and `PnlBooks.BaseFeeSellSplits` shows one sell that splits them.
- **Execution ids that are not ASCII** are merged by the reader that keys on decoded text:
  `Executions.ReadersKeepSameIff`.
- **Epoch times "for any date this century"**: the digit count tells the units apart only from 10^12 ms
  (September 2001) on, or at zero: `CsvFields.SpellingsAgreeIff`.
- **The depth interval of the synthetic data** is not validated: with an interval of 0 or less the event
  loop never ends (`SyntheticData.LoopNeverEnds`), with any other it does (`SyntheticData.LoopEnds`).
- **A group added by a later SBE version** makes complete messages of earlier versions invalid to the
  generated reader, although added fields do not: `SbeGroups.ValidIffComplete`, with an example in
  `SbeGroups.AddedGroupBreaks`.
- **A required field added by a later SBE version** reads as zero from older blocks and cannot be told from a
  stored zero (`SbeBlocks.ZeroOrAbsent`); only optional numbers and decimals report that they are missing:
  `SbeBlocks.MissingIff`.

## Model

| member | source | states |
|---|---|---|
| `Itch.ExactAfterAdd` | bench/l3_itch_replay.cpp:128-132 | adding a fresh positive order keeps every level equal to the resting quantity at its price |
| `Itch.ExactAfterReduce` | bench/l3_itch_replay.cpp:106-120 | reducing an order keeps levels exact, and the level that is looked up always exists and covers the order |
| `Itch.LevelsDetermined` | bench/l3_itch_replay.cpp:122-163 | the orders determine the levels: two exact level maps are equal |
| `Itch.RankedIsNthBest` | bench/queue_truth.cpp:177-182 | `best(rank)` is a shown price and exactly `rank` shown prices are better |
| `ReferenceBook.ApplyKeepsExact` | bench/l3_itch_replay.cpp:122-163 | every message, valid or not, keeps the reference levels exact |
| `ReferenceBook.RunIsExact` | bench/l3_itch_replay.cpp:106-163 | after any stream the reference levels are the sums of resting quantities, with no empty level |
| `ReferenceBook.RefBook.RefReduce` | bench/l3_itch_replay.cpp:106-120 | in place: clips to the order's quantity (0 or too much means all), erases emptied levels and orders, and nothing else |
| `ReferenceBook.RefBook.RefApply` | bench/l3_itch_replay.cpp:122-163 | in place: the whole new book is the specified one, and it stays exact |
| `ReferenceBook.RefBook.Touch` | bench/l3_itch_replay.cpp:404-414 | the best shown price with the resting quantity there, or zeros when the side is empty |
| `QueueRules.AheadExactly` | include/fastmm/core/queue_model.hpp:110-127 | an execution is reported as ahead of an order exactly when it was at its price with an earlier place |
| `QueueRules.FillsExactly` | include/fastmm/core/queue_model.hpp:110-127 | an execution fills an order exactly when the order comes before the executed one in price and place and the aggressor reached its price |
| `QueueRules.LevelChangeMonotone` | include/fastmm/core/queue_model.hpp:72-86 | a longer queue or a more conservative model never becomes the shorter one when the level shrinks, and no queue grows or goes negative |
| `QueueRules.ProportionalShare` | include/fastmm/core/queue_model.hpp:72-86 | without conservatism the queue shrinks in proportion to the level, rounded up |
| `QueueRules.CreditIsShare` | include/fastmm/core/queue_model.hpp:72-86 | with conservatism c the credit is the share (10000 - c) / 10000 of the proportional one, rounded down |
| `QueueRules.LevelChangeEnds` | include/fastmm/core/queue_model.hpp:76-77 | a level that does not shrink changes nothing, and one that empties empties the queue |
| `QueueRules.PrintConserves` | include/fastmm/core/queue_model.hpp:88-108 | a print at the order's price takes from the queue and then fills the order: together the print, as far as queue and order reach, and no fill while anyone is ahead |
| `QueueRules.PrintElsewhere` | include/fastmm/core/queue_model.hpp:88-99 | a print through the price is one at the price with nothing ahead; a print at a better price, by the other side, or to a filled order changes nothing |
| `QueueRules.TradeMonotone` | include/fastmm/core/queue_model.hpp:88-108 | a print keeps the order of two models: longer queue, no more fills; nothing overfills |
| `QueueFollower.CancelKeepsGood` | bench/queue_truth.cpp:217-231 | a cancel keeps a follower's bounds and its L3 queue exact |
| `QueueFollower.ExecutionKeepsGood` | bench/queue_truth.cpp:239-278 | another order's execution keeps a follower's bounds, the order of the models and the exact L3 queue |
| `QueueFollower.OwnExecutionKeepsGood` | bench/queue_truth.cpp:279-301 | its own execution adds the same shares to the truth, takes them from what is left, and fills under the L3 rule |
| `QueueFollower.PrintKeepsGood` | bench/queue_truth.cpp:412-435 | a hidden trade moves the L2 models only |
| `QueueTruth.KindIs` | bench/queue_truth.cpp:309-324 | in the session with both sides shown: kind 0 exactly at the best price of the side, kind 1 exactly strictly between the touches, kind 2 exactly with one better price shown; otherwise the order is not followed |
| `QueueTruth.UnitsAre` | bench/queue_truth.cpp:210-215 | a share is 100 million units in the queues and one share in the fill list |
| `QueueSafety.StepKeepsSafe` | bench/queue_truth.cpp:188-209 | on any message at all: the lists of living followers, their flags and the orders' links stay in one-to-one agreement, so every `find` and index is in range |
| `QueueSound.LevelChangeInRange` | bench/queue_truth.cpp:218-251 | the level rule is always called with 0 <= now <= was, was - now the shares that left, and was > 0 |
| `QueueSound.StepKeepsSound` | bench/queue_truth.cpp:303-438 | every accepted message keeps exact levels, followers that mirror their orders, and exact L3 queues |
| `QueueTallies.FinishKeepsCounted` | bench/queue_truth.cpp:188-209 | finishing an order adds exactly its own figures to the tallies |
| `QueueTallies.StepKeepsCounted` | bench/queue_truth.cpp:188-375 | after every message each tally cell is the sum over finished orders and the fill list explains every filled share |
| `QueueRuns.StepAgreesIff` | bench/l3_itch_replay.cpp:122-163 | scorer and reference agree after a message if and only if the message is well formed for their common book |
| `QueueRuns.RunsAgreeIff` | bench/l3_itch_replay.cpp:122-163 | over a whole stream scorer and reference agree after every message if and only if the stream is valid |
| `QueueRuns.ZeroExecutionSplits` | bench/queue_truth.cpp:358-375 | an execution of 0 shares keeps the order in the scorer and removes it from the reference |
| `QueueRuns.ReplayIsSafe` | bench/queue_truth.cpp:377-446 | on every stream the redundant indexes agree |
| `QueueRuns.ReplayIsSound` | bench/queue_truth.cpp:377-446 | on every valid stream the scorer's book is the reference book, and all invariants hold |
| `QueueRuns.LevelsInRun` | bench/queue_truth.cpp:172-187 | in every reachable state the shown quantity is the resting quantity, and a level exists exactly where an order rests |
| `QueueRuns.BestInRun` | bench/queue_truth.cpp:177-182 | in every reachable state `best(rank)` is a price where an order rests, with exactly `rank` better ones, or -1 |
| `QueueRuns.L3QueueInRun` | bench/queue_truth.cpp:218-302 | in every reachable state a living follower's L3 queue is exactly the earlier quantity at its price until its first L3 fill, then zero |
| `QueueRuns.FillsInRun` | bench/queue_truth.cpp:266-375 | in every reachable state true fills <= L3 fills <= size, and filled plus left is the size while the order lives, with left its resting quantity |
| `QueueRuns.ConservatismInRun` | bench/queue_truth.cpp:217-265 | in every reachable state a more conservative model has no shorter queue and no more fills |
| `QueueRuns.FinishAliveIs` | bench/queue_truth.cpp:447-448 | ending the survivors changes nothing of them but that they are over |
| `QueueRuns.ScoreCountsOnce` | bench/queue_truth.cpp:188-209 | each followed order is tallied once, and both + truth-only is the number truly filled, for every model |
| `QueueRuns.ScoreL3MissesNothing` | bench/queue_truth.cpp:188-209 | the L3 rule misses no true fill and no true quantity at the end of any valid stream |
| `QueueRuns.ScoreIsMonotone` | bench/queue_truth.cpp:198-208 | every column of the scoreboard is monotone in conservatism |
| `QueueRuns.ScoreFillsAddUp` | bench/queue_truth.cpp:210-215 | the fill list adds up to the tallied quantities, for the truth and for the L3 rule |
| `QueuePriority.StepIsTrueIff` | bench/queue_truth.cpp:266-301 | from fills that equal the truth, a message keeps the L3 rule equal to it if and only if it executes nobody over the head of a living followed order |
| `QueuePriority.L3IsTrueIff` | bench/queue_truth.cpp:266-301 | all along a valid stream the L3 fills are the true fills exactly when no execution jumps a living followed order |
| `QueuePriority.PassedOverIsFilled` | bench/queue_truth.cpp:266-270 | a valid stream of five messages on which the L3 rule fills an order of which nothing was executed |
| `QueuePriority.PriorityIsTrue` | bench/queue_truth.cpp:266-301 | on streams in price-time priority the L3 fills are the true fills, order by order, at every moment |
| `QueuePriority.StepKeepsStrict` | bench/queue_truth.cpp:217-301 | in priority and without hidden prints every message keeps the 10000 bps queue at least as long as what rests in front |
| `QueuePriority.StrictIsSafe` | bench/queue_truth.cpp:217-301 | on such streams the 10000 bps queue is never shorter than the L3 queue and never fills more than the truth |
| `QueuePriority.ScoreInPriority` | bench/queue_truth.cpp:188-209 | their scoreboard has no L3 fill that was not true and the true quantity; without hidden prints the 10000 bps model claims no false fill either |
| `QueuePriority.StepKeepsPlain` | bench/queue_truth.cpp:217-301 | in priority, every execution printed, without cancels and hidden prints, each message keeps every L2 queue equal to what rests in front and its fills equal to the truth |
| `QueuePriority.CalmIsExact` | bench/queue_truth.cpp:217-301 | at every moment of such a stream all five L2 models have exactly the true fills and the true queue |
| `QueuePriority.ScoreOfCalm` | bench/queue_truth.cpp:188-209 | its scoreboard: no L2 model misses a fill or claims a false one, and each has the true quantity |
| `QueuePriority.ModelsAre` | bench/queue_truth.cpp:224-227 | the five L2 models judge a shrinking level at 0, 2500, 5000, 7500 and 10000 bps |
| `QueueLevels.StepKeepsWithin` | bench/queue_truth.cpp:217-301 | cancels, silent executions, prints and hidden prints keep the 0 bps queue within what others show at the price |
| `QueueLevels.ProportionalInRun` | bench/queue_truth.cpp:217-301 | at every moment of a valid stream whose prints are at no better price than the executed order's, the 0 bps queue is at most the others' resting quantity at the price, and empty when the order is alone there |
| `QueueLevels.FairIff` | bench/queue_truth.cpp:233-265 | that condition is exact for an order with the whole level in front of it: a printed execution there keeps its queue within the level if and only if it was not printed at a better price |
| `QueueLevels.HiddenPrint` | bench/queue_truth.cpp:412-435 | a hidden print leaves bids and other stocks alone, and gives each model of an offer what a buyer's print gives: from the queue first at its price, to the order alone once it is through |
| `QueueFills.StepAdds` | bench/queue_truth.cpp:210-302 | any message, valid or not, only appends fills: its own time, the stock, side, price and kind of a followed order, and per model what that model filled, less than a share short each |
| `QueueFills.ListInScore` | bench/queue_truth.cpp:210-302 | on any stream every entry of the final list is some followed order's at some message's time, and each model's entries add up to what it filled, less than a share short each |
| `QueueScorer.ShrinkModels` | bench/queue_truth.cpp:224-227 | the loop over the L2 models applies the level rule to each |
| `QueueScorer.PrintToModels` | bench/queue_truth.cpp:252-265 | the loop over the L2 models fills each as the trade rule says, in order |
| `QueueScorer.TallyFinished` | bench/queue_truth.cpp:193-208 | the tally loop computes the specified tally |
| `QueueScorer.EraseFirst` | bench/queue_truth.cpp:191-192 | find and erase removes the first occurrence only |
| `QueueScorer.SelectedPerLocate` | bench/queue_truth.cpp:377-383 | every selected locate keeps all its messages in their order, every other none |
| `QueueScorer.Scorer.LevelAdd` | bench/queue_truth.cpp:183-187 | in place: moves one level, erases it when not positive, no other |
| `QueueScorer.Scorer.FinishOrder` | bench/queue_truth.cpp:188-209 | in place: the whole new state is the specified one |
| `QueueScorer.Scorer.OnCancelOrder` | bench/queue_truth.cpp:218-231 | in place: every living follower of the side sees the cancel once, no other changes |
| `QueueScorer.Scorer.OnExecuteOrder` | bench/queue_truth.cpp:233-302 | in place: every living follower sees the execution once, fills in order, then the order's own follower |
| `QueueScorer.Scorer.AddNew` | bench/queue_truth.cpp:303-342 | in place: classifies, follows and books a new order |
| `QueueScorer.Scorer.CancelOrder` | bench/queue_truth.cpp:344-357 | in place: the specified cancel, indexes still in agreement |
| `QueueScorer.Scorer.ExecuteOrder` | bench/queue_truth.cpp:358-375 | in place: the specified execution, indexes still in agreement |
| `QueueScorer.Scorer.OnHiddenTrade` | bench/queue_truth.cpp:412-435 | in place: prints a hidden trade to both sides' followers |
| `QueueScorer.Scorer.OnMessage` | bench/queue_truth.cpp:387-438 | in place: one message is one step of the state machine |
| `QueueScorer.Scorer.Run` | bench/queue_truth.cpp:377-448 | the program computes the score of the selected locates' messages; on a valid stream the L3 rule missed nothing |
| `ItchStream.MakeStream` | bench/bench_codecs_nasdaq.cpp:147-216 | for every draw: names resting orders only, never over-executes, keeps bids below offers, only adds below live_lo resting orders and only deletes above live_hi, at most live_hi + 1 resting, n messages and then deletes alone, and the reference book ends empty |
| `ItchStream.HealthyAt` | bench/bench_codecs_nasdaq.cpp:135-141 | at every position of a generated stream the named order rests with enough quantity, every resting bid is below every resting offer, and the cap holds |
| `ItchStream.DrawPrice` | bench/bench_codecs_nasdaq.cpp:171-181 | whole cents; bids at most $100 and offers above it; within the spread, or a stub quote |
| `ItchStream.Generator.PushExecution` | bench/bench_codecs_nasdaq.cpp:193-212 | executes exactly 100 shares or what is left of the chosen order, and keeps the live list equal to the book, also through swap-and-pop |
| `ItchMerge.MergedRun` | bench/bench_codecs_nasdaq.cpp:302-330 | a locate's part of the interleaved book is the book of its own stream |
| `ItchMerge.MergedIsValid` | bench/bench_codecs_nasdaq.cpp:302-330 | any order-preserving interleaving of valid streams of different locates is valid, and ends empty if each does |
| `ItchMerge.Merge` | bench/bench_codecs_nasdaq.cpp:320-330 | the cursor merge keeps each stream, whole and in order, and adds nothing |
| `ItchMerge.MultiSymbol` | bench/bench_codecs_nasdaq.cpp:306-330 | the merged benchmark stream is valid and leaves every book empty |
| `FixedPoint.OrIsSum` | python/fastmm/fx.py:128-130 | joining a shifted high half and a low half by `or` is addition (on 64-bit vectors) |
| `FixedPoint.MagnitudeIsDivision` | python/fastmm/fx.py:126-131 | the two 64-bit steps give the low 64 bits of the 128-bit quotient, every intermediate fitting in 64 bits |
| `FixedPoint.CompiledMulIsExact` | python/fastmm/fx.py:104-134 | the compiled product-and-divide equals `mul_ratio` for all int64 pairs |
| `FixedPoint.UnitRatio` | python/fastmm/fx.py:64-68 | the ratio 100 000 000 is one: it gives every value back |
| `FixedPoint.CompiledTDivIsExact` | python/fastmm/fx.py:159-169 | compiled `tdiv` equals plain `tdiv` for all int64 pairs, division by zero and INT64_MIN / -1 included |
| `FixedPoint.TDivTruncates` | python/fastmm/fx.py:56-61 | the remainder is smaller than the divisor and has the dividend's sign |
| `FixedPoint.RoundPriceIsBest` | python/fastmm/fx.py:76-81 | a buy rounds to the largest grid price not above, a sell to the smallest not below; a negative tick swaps the two |
| `FixedPoint.RoundQtyIsBest` | python/fastmm/fx.py:84-86 | the largest multiple of the lot not above, or the smallest not below when the lot is negative |
| `Crc32c.MakeTable` | tools/journal_dump.py:58-65 | each of the 256 entries is its index fed through eight bit steps |
| `Crc32c.PolyIs` | tools/journal_dump.py:63 | the polynomial of the bit steps is 0x82F63B78 |
| `Crc32c.TableStep` | tools/journal_dump.py:71-75 | one table look-up and a shift equal eight bit-serial steps |
| `Crc32c.Crc` | tools/journal_dump.py:71-75 | the table-driven checksum is the bit-serial CRC32C of every byte string |
| `Crc32c.PresetFlips` | tools/journal_dump.py:71-75 | the preset and the final inversion as a law: the checksum is the complement of feeding an empty register the same bytes with the first four flipped |
| `Crc32c.ZeroByteValue` | tools/journal_dump.py:71-75 | the checksum of one zero byte is 0x527D5351 |
| `Crc32c.FeedInjective` | tools/journal_dump.py:71-75 | different registers stay different through any data |
| `Crc32c.BurstDetected` | tools/journal_dump.py:71-75 | data that differ only inside some four consecutive bytes have equal checksums exactly when they are equal |
| `Journal.IterEvents` | tools/journal_dump.py:360-399 | terminates on any bytes; yields the specified events, block count, bad-checksum count and trailer flag |
| `Journal.IterEventsInPlace` | python/fastmm/_fmj.py:200-220 | the copy-free reader with two cursors yields the specified events |
| `Journal.EventsAreBlocks` | tools/journal_dump.py:367-399 | the events of a journal are the messages of its complete blocks, in order |
| `Journal.ReadersDiffer` | tools/journal_dump.py:376-399 | the in-place reader yields the other's events and then those of whatever follows the trailer |
| `Journal.ReadersAgreeIff` | python/fastmm/_fmj.py:200-220 | the two readers agree exactly when no complete block behind the trailer starts with a whole message, so whenever nothing follows the trailer |
| `Journal.BlockBehindTrailer` | python/fastmm/_fmj.py:200-220 | a trailer and one block with a message behind it: one reader yields nothing, the other the message |
| `Journal.CutKeepsWholeBlocks` | tools/journal_dump.py:367-375 | a file cut anywhere keeps exactly the blocks that lie before the cut |
| `Journal.WholeIsMaximal` | tools/journal_dump.py:367-375 | those blocks fit in the cut file and one more would not |
| `Journal.CutReadsPrefix` | tools/journal_dump.py:360-399 | reading any byte prefix yields a prefix of the events |
| `Journal.ReadBack` | tools/pnl_report.py:399-402 | written blocks are read back, message for message, by both readers |
| `Journal.CrashLosesOneBlock` | tools/pnl_report.py:477-480 | cut after any byte, a written journal yields exactly the messages of the blocks finished by then, to both readers |
| `Journal.DamageShows` | tools/journal_dump.py:378-381 | damage within four bytes of a payload always changes its checksum |
| `Journal.WrittenIsSound` | tools/pnl_report.py:477-480 | no block of a written journal counts as bad |
| `Journal.ChecksumsAre` | tools/journal_dump.py:71-75 | the checksums of a payload of one zero byte and of an empty payload |
| `Journal.TrailerBytes` | tools/pnl_report.py:480 | a written trailer, byte for byte |
| `Journal.TrailerFlag` | tools/journal_dump.py:376-377 | a block is a trailer exactly when the lowest bit of byte 32 is set |
| `Journal.DamageIsCounted` | tools/journal_dump.py:378-381 | damage within four bytes of one payload makes the reader count exactly one bad block, wherever it is in the journal |
| `Journal.DamageIsContained` | tools/journal_dump.py:378-399 | with one payload altered in any way, both readers still yield every message of every other block |
| `Executions.Dedupe` | python/fastmm/_fmj.py:150-168 | keeps each identified execution once, in order; the rest is the duplicate count |
| `Executions.RepeatsIff` | python/fastmm/_fmj.py:150-156 | an execution is a repeat exactly when it has an id and an earlier one has the same instrument, the same side and the same id, for text up to bytes above 127 |
| `Executions.KeptNext` | tools/pnl_report.py:193-199 | one without an id, or that differs from every earlier one in id, instrument or side, is always booked; any other never |
| `Executions.BothSidesKept` | tools/pnl_report.py:193-199 | the buy and the sell of one execution id are both booked |
| `Executions.ReplayIsIgnored` | tools/pnl_report.py:193-199 | replaying an identified execution anywhere after its first delivery changes nothing that is booked |
| `Executions.BytesKeepMore` | python/fastmm/_fmj.py:150-156 | keying by bytes keeps at least as many executions, and more as soon as two ids are confused |
| `Executions.ReadersKeepSameIff` | tools/pnl_report.py:193-199 | both readers keep the same executions exactly when no two ids differ only in non-ASCII bytes |
| `Executions.NonAsciiIdsCollide` | tools/pnl_report.py:193-199 | two one-byte ids above 127: one reader keeps both, the other one |
| `PnlBooks.TradeConservesCash` | python/fastmm/report.py:228-240 | through adds, reduces and flips, realized minus average cost times position is the cash paid out |
| `PnlBooks.FillWorth` | tools/pnl_report.py:94-151 | at any multiplier and mark a fill's cash and inventory are worth its signed quantity times mark less price, times the multiplier, less its commission |
| `PnlBooks.AverageCostIsCashFlow` | python/fastmm/report.py:209-240 | for every fill sequence and mark the average-cost figure is the cash-flow figure plus twice each base-fee sell's fee times (mark - price) |
| `PnlBooks.AgreeAtEveryMarkIff` | tools/pnl_report.py:94-151 | for fees of any sign, the two figures agree at every mark exactly when the base commissions of sells cancel in units and in value |
| `PnlBooks.AgreeThroughoutIff` | tools/pnl_report.py:94-151 | they agree after every fill and at every mark exactly when no sell pays or earns a base commission |
| `PnlBooks.BaseFeeSellSplits` | python/fastmm/report.py:223-225 | one sell with half a unit of base commission, marked one above its price: the figures differ by one |
| `PnlBooks.NetIsCashFlow` | python/fastmm/report.py:269-272 | the session figure over all instruments is the sum of their cash-flow books plus that excess |
| `PnlBooks.Commission` | python/fastmm/report.py:219-227 | the signed quantity and the charge by the asset the fee is paid in |
| `PnlBooks.AverageCost` | python/fastmm/report.py:229-238 | the branches compute the specified average and realized gain |
| `PnlBooks.SessionAccount.OnFill` | python/fastmm/report.py:216-240 | in place: the dictionaries track every traded instrument and the two running sums their totals |
| `PnlBooks.SessionAccount.Unrealized` | python/fastmm/report.py:209-211 | the open profit, with an instrument that has no mark carried at its average cost |
| `PnlBooks.SessionAccount.NetPnl` | python/fastmm/report.py:268-275 | the reported net is the cash-flow total of all instruments, with the excess |
| `PnlBooks.RunSession` | python/fastmm/report.py:213-272 | the net of a session follows from its fills and the last mid of each instrument, and is their cash-flow total with the excess |
| `PnlBooks.MaxDrawdown` | python/fastmm/report.py:319-325 | the largest fall from a point to a later one: attained, and never exceeded |
| `InstrumentBooks.InstrumentBook.OnFill` | tools/pnl_report.py:94-142 | in place: every total, every fee column, the last price, the first and last times, the markout list and every hour bucket stay those of the booked fills |
| `InstrumentBooks.AddToTotals` | tools/pnl_report.py:94-132 | one more fill keeps every total the sum over the fills, by side and by the asset of the fee |
| `InstrumentBooks.AddToTrail` | tools/pnl_report.py:130-142 | one more fill keeps the last price, the first and last times and the markout list those of the fills, in order |
| `InstrumentBooks.HoursAfter` | tools/pnl_report.py:133-141 | a fill changes the bucket of its own hour, exactly, and no other |
| `InstrumentBooks.InstrumentBook.OnFunding` | tools/pnl_report.py:144-147 | funding is cash and nothing else |
| `InstrumentBooks.InstrumentBook.Pnl` | tools/pnl_report.py:149-151 | cash flows plus funding plus inventory at the mark; from the fills alone, the multiplier times signed quantities times mark less price, less quote commissions, less base commissions at the mark, plus funding |
| `InstrumentBooks.BookWorth` | tools/pnl_report.py:94-151 | at any multiplier a book is worth the multiplier times the moves of its fills, less quote commissions, less base commissions at the mark |
| `InstrumentBooks.RoundTrip` | tools/pnl_report.py:94-151 | buying and selling a quantity earns the price difference times quantity times multiplier, at any mark |
| `InstrumentBooks.ColumnsFromFills` | tools/pnl_report.py:94-132 | notional, cash and the fee columns from prices, quantities, sides and fees alone, at any multiplier |
| `InstrumentBooks.HourIs` | tools/pnl_report.py:133 | hours are 3600 seconds from the start; earlier fills count for the first |
| `InstrumentBooks.TrailMoves` | tools/pnl_report.py:142 | the markout list has the times of the fills, and at any one mark its signed gains are the moves of the fills |
| `InstrumentBooks.ColumnsAreSums` | tools/pnl_report.py:94-124 | the book's cash and inventory are the ones the average-cost theorem speaks of |
| `InstrumentBooks.ReadFills` | tools/pnl_report.py:154-201 | one book for each instrument mentioned, at its own multiplier, holding exactly that instrument's deduplicated executions and its funding; every other execution only counts as a duplicate there |
| `InstrumentBooks.ReadOne` | tools/pnl_report.py:185-200 | one record goes to its own instrument's book, new if need be, as a duplicate if its key was booked anywhere; no other book changes |
| `InstrumentBooks.ReplayChangesNothing` | tools/pnl_report.py:168-200 | reading a journal with a replayed execution anywhere after the first: every figure of every book is the same, and its own instrument counts exactly one more duplicate |
| `InstrumentBooks.ReadWithReplay` | tools/pnl_report.py:154-201 | the same of two readings of the two journals by the program |
| `InstrumentBooks.HoursDetermined` | tools/pnl_report.py:133-141 | the booked fills determine every hour bucket |
| `InstrumentBooks.KeptPerInstrument` | tools/pnl_report.py:168-200 | deduplicating a session and deduplicating each instrument's part are one |
| `ReplayBoard.FindMid` | tools/replay_board.py:112-115 | the bisection finds the mid of the last bar at or before the time, or none |
| `ReplayBoard.MidStays` | tools/replay_board.py:112-115 | a symbol that has a mid has one ever after |
| `ReplayBoard.BucketOf` | tools/replay_board.py:48-54 | the loop returns the name of the specified bucket |
| `ReplayBoard.FirstBucketWins` | tools/replay_board.py:48-54 | the first bucket covering the hour, across midnight if need be, or "other" |
| `ReplayBoard.SpansPartition` | tools/replay_board.py:48-54 | a span and the span from its end to its start share the day between them, starts included and ends excluded |
| `ReplayBoard.MakerFigures` | tools/replay_board.py:137-153 | a bucket's purchases, turnover, rebate and markouts from the makers' fills in [t0, t1) alone: twice the purchases less the turnover is the money paid, the rebate a rate on the turnover, the markout what the fills kept at their marks |
| `ReplayBoard.MoneyAtBarStart` | tools/replay_board.py:125-153 | money goes to the bucket of a bar's start: a bucket in which no bar starts earns none from fills |
| `ReplayBoard.AddPicked` | tools/replay_board.py:120 | filtering and sorting the fills loses none in [t0, t1) and doubles none, for every figure |
| `ReplayBoard.CarryTelescopes` | tools/replay_board.py:132-136 | what a bar adds for held positions is their change in worth, less positions whose first mid came in the bar |
| `ReplayBoard.FillBalances` | tools/replay_board.py:137-153 | what a fill adds is its change to the worth of positions at the bar's end plus its flow of money |
| `ReplayBoard.FillBar` | tools/replay_board.py:137-153 | the inner loop books exactly the fills of the bar, once each |
| `ReplayBoard.Score` | tools/replay_board.py:118-162 | every scored fill booked once; each bucket's bars, money, fills, notional, buys, rebates, long positions and markouts at every horizon exact; the path shows every bar's positions and no other time; all money together is the gain in worth plus the flow, less late first marks, and with mids throughout it telescopes to last positions at the last mids, less the first at the first, less signed cost and fees, plus rebates |
| `ReplayBoard.FlowWhenQuoted` | tools/replay_board.py:118-162 | with mids throughout no position is marked late and the flow of money is minus cost minus fees plus rebates |
| `ReplayBoard.Snapshot` | tools/replay_board.py:158-160 | the bar's picture: positions in money of the symbols with a mid, and the sum of the long ones |
| `BoardAccounts.ThreeAccounts` | tools/replay_board.py:118-162 | with mids throughout the score without rebates is what the cash-flow books, and what the average-cost account, make of the same fills at the last mids, plus the gain of the start positions |
| `BoardAccounts.ScoreAgainstBooks` | tools/replay_board.py:118-162 | the same of the money the program computes, rebates included |
| `SyntheticData.DrawSide` | tools/gen_synthetic_data.py:88-95 | `levels` distinct prices outward from the top, positive sizes |
| `SyntheticData.TargetBook` | tools/gen_synthetic_data.py:83-96 | both tops one tick apart around the latent mid |
| `SyntheticData.Redraw` | tools/gen_synthetic_data.py:147-153 | exactly the target's prices, each with the drawn or the kept size |
| `SyntheticData.Publish` | tools/gen_synthetic_data.py:154-161 | one row per price that differs, in price order, after which the reader's side is the current one |
| `SyntheticData.Sweep` | tools/gen_synthetic_data.py:121-137 | prints explain every missing lot price by price, best prices go first, and the total is the order size or the side's depth |
| `SyntheticData.SweepKeepsMarket` | tools/gen_synthetic_data.py:121-142 | a sweep leaves readers' depth alone and prints only within what they were shown |
| `SyntheticData.BookUncrossed` | tools/gen_synthetic_data.py:113-166 | the internal book is crossed at no time |
| `SyntheticData.Feed.constructor` | tools/gen_synthetic_data.py:98-112 | after the snapshot, all of it at the start time under number 1, reader, published view and internal book are one |
| `SyntheticData.Feed.Hit` | tools/gen_synthetic_data.py:121-137 | in place: only the hit side and the file change, as the sweep says |
| `SyntheticData.Feed.Flush` | tools/gen_synthetic_data.py:138-166 | one flush: delta rows for exactly levels that readers hold otherwise, then both tickers, all at its time under one new number; then reader, published view and internal book are one, on the target prices, two-sided and uncrossed, whatever trades took in between |
| `SyntheticData.Feed.Run` | tools/gen_synthetic_data.py:113-166 | the event loop ends, having gone from state to state by exactly the event that was due: a step of the mid, a sweep, or a flush that leaves reader and book one and on target; every trade printed at a shown price within the shown size, every ticker row was the shown best of an uncrossed book |
| `SyntheticData.EveryFlushHappens` | tools/gen_synthetic_data.py:113-166 | in a finished run every flush of the schedule happened, at its time and on target |
| `SyntheticData.LoopEnds` | tools/gen_synthetic_data.py:113-166 | with a positive interval the number of turns is bounded by the nanoseconds left |
| `SyntheticData.LoopNeverEnds` | tools/gen_synthetic_data.py:108-117 | with an interval of 0 or less a flush is always due |
| `SbeLayout.Compile` | tools/sbe_gen.py:207-222 | the loop computes the layout, or reports the first overlap or the end beyond the block |
| `SbeLayout.PlacedIsArranged` | tools/sbe_gen.py:207-222 | placed items are disjoint, in order, at their own offsets, and before the end |
| `SbeLayout.PlacingIsLeast` | tools/sbe_gen.py:207-222 | no arrangement that honours the offsets ends earlier |
| `SbeLayout.AcceptedIff` | tools/sbe_gen.py:207-222 | a schema is refused exactly when no ordered, disjoint arrangement honours its offsets and block length |
| `SbeLayout.PrefixKeepsPlace` | tools/sbe_gen.py:207-222 | appended fields do not move earlier ones |
| `SbeLayout.PackedTight` | tools/sbe_gen.py:213-214 | a field without an offset follows the one before it without a gap |
| `SbeBlocks.DecodeEncode` | include/fastmm/codecs/sbe/sbe.hpp:33-60 | every number reads back as stored; a text up to the array's end or its first NUL |
| `SbeBlocks.CleanIff` | include/fastmm/codecs/sbe/sbe.hpp:47-60 | a text survives exactly when it fits and holds no NUL |
| `SbeBlocks.MinusOne` | include/fastmm/codecs/sbe/sbe.hpp:33-45 | negative numbers are in two's complement: minus one is all ones |
| `SbeBlocks.RangesAre` | tools/sbe_gen.py:42-52 | what each primitive type holds |
| `SbeBlocks.MemberRanges` | tools/sbe_gen.py:117-134 | a composite member holds what its own size and sign say |
| `SbeBlocks.DefaultNull` | tools/sbe_gen.py:413-419 | the null without a nullValue is the largest value of an unsigned type, the smallest of a signed one, and NUL for a character |
| `SbeBlocks.ZeroIsThere` | tools/sbe_gen.py:583-594 | a stored zero of an optional integer without its own nullValue is never missing |
| `SbeBlocks.AbsentIs` | tools/sbe_gen.py:574-611 | an absent field reads as its null where its kind has one, and otherwise as what a block of zeros holds |
| `SbeBlocks.AbsentIsTyped` | tools/sbe_gen.py:579-604 | the value a getter returns for an absent field, by kind, presence and nullValue, is a value of the field's own type |
| `SbeBlocks.CellsFitted` | tools/sbe_gen.py:117-134 | composite members are disjoint and inside the composite |
| `SbeBlocks.LoadStore` | tools/sbe_gen.py:540-552 | a composite reads back member by member |
| `SbeBlocks.FieldsDisjoint` | tools/sbe_gen.py:207-222 | in every accepted schema fields lie in the block and do not overlap |
| `SbeBlocks.RequiredLength` | tools/sbe_gen.py:635-640 | the least length that holds every field of the message's first version |
| `SbeBlocks.PresentIsInside` | tools/sbe_gen.py:574-577 | in a message that is valid() every field that is not absent ends inside the acting block and the body |
| `SbeBlocks.GetDepends` | tools/sbe_gen.py:557-611 | a getter's answer depends on no byte outside its field of the acting block |
| `SbeBlocks.SetterLaws` | tools/sbe_gen.py:613-632 | a setter changes its own field, no other field, and nothing behind the block |
| `SbeBlocks.BlockWriter.constructor` | tools/sbe_gen.py:788-798 | zero-fills exactly the block, or leaves a short buffer alone and is not ok |
| `SbeBlocks.BlockWriter.Set` | tools/sbe_gen.py:805-808 | in place: writes the field when ok, and otherwise nothing |
| `SbeBlocks.WriteAll` | tools/sbe_gen.py:785-808 | writing every field leaves a block that holds every value |
| `SbeBlocks.AcrossVersions` | tools/sbe_gen.py:686-771 | an older or newer block is valid, common fields read as written, and fields the writer does not know read as the null the generator derives from their type |
| `SbeBlocks.MissingIff` | tools/sbe_gen.py:583-594 | an optional number (has_x) or decimal (is_null) is reported missing exactly when the writer did not know it or stored its null; no other field ever is |
| `SbeBlocks.AbsentLooksStored` | tools/sbe_gen.py:574-611 | an added field reads from an older block exactly as from a newer one that stores its absent value |
| `SbeBlocks.ZeroOrAbsent` | tools/sbe_gen.py:574-611 | a concrete pair of schemas: the required byte that was never sent and the byte 0 read alike, and neither is reported missing |
| `SbeBlocks.AbsentOptionalByte` | tools/sbe_gen.py:583-594 | an optional byte added later reads 255 and missing from an older block, and a stored 0 is there |
| `SbeBlocks.ConstantReads` | tools/sbe_gen.py:561-573 | a constant field takes no byte and reads the same from every message |
| `SbeBlocks.ReadBack` | tools/sbe_gen.py:686-808 | the same version reads back every value |
| `SbeGroups.ReadGroup` | include/fastmm/codecs/sbe/sbe.hpp:201-219 | every entry of a valid view is inside the body and long enough for its reader |
| `SbeGroups.HeaderIs` | include/fastmm/codecs/sbe/sbe.hpp:320-325 | a dimension holds its block length and count little-endian at the schema's places, and zeros elsewhere |
| `SbeGroups.GroupsReadBack` | include/fastmm/codecs/sbe/sbe.hpp:196-231 | chained groups of any block length read back entry by entry, with their count |
| `SbeGroups.CutIsInvalid` | tools/sbe_gen.py:763-771 | a message cut anywhere before its end is not valid |
| `SbeGroups.ValidIffComplete` | tools/sbe_gen.py:715-728 | a complete message is valid exactly when it carries every group the reader knows |
| `SbeGroups.AddedGroupBreaks` | tools/sbe_gen.py:715-728 | a two-byte message without groups is valid to its own reader and invalid once a group is added |
| `Decimals.RawDec` | tools/journal_dump.py:78-84 | `raw(dec(n)) == n` for every integer |
| `Decimals.RawTruncates` | tools/pnl_report.py:406-409 | digits with a point are read as their value truncated to eight places, however many digits follow |
| `Decimals.FormatIsExact` | python/fastmm/strategy.py:161-181 | the printed double is in the accepted grammar, denotes exactly its digits and exponent, and is the shorter of the two forms |
| `Decimals.ParseIntStr` | python/fastmm/strategy.py:206-214 | an integer survives printing and parsing exactly when it fits in 64 bits |
| `Decimals.IntegerRange` | python/fastmm/strategy.py:206-214 | the first and last accepted integers and their refused neighbours |
| `Decimals.WholeIsSame` | python/fastmm/strategy.py:206-214 | a magnitude is an integer exactly when it denotes one, and then that one |
| `Decimals.ParseIntIff` | python/fastmm/strategy.py:206-214 | the parser returns v exactly when the string is in the grammar, denotes v with its sign, and v fits in 64 bits |
| `CsvFields.Split` | src/backtest/csv_fields.hpp:10-22 | returns the field count, writes the first `max` fields and touches nothing behind them |
| `CsvFields.JoinFields` | src/backtest/csv_fields.hpp:10-22 | joining the fields with commas restores the line |
| `CsvFields.FieldsJoin` | src/backtest/csv_fields.hpp:10-22 | comma-free fields survive being joined and split |
| `CsvFields.SplitIffJoin` | src/backtest/csv_fields.hpp:10-22 | the fields are the only comma-free list that joins to the line |
| `CsvFields.ParseU64` | src/backtest/csv_fields.hpp:24-35 | succeeds exactly on non-empty digit strings that fit in 64 bits, with their value |
| `CsvFields.ParseEpochNs` | src/backtest/csv_fields.hpp:40-47 | never overflows: fails exactly when the scaled time does not fit in int64 |
| `CsvFields.LargestTime` | src/backtest/csv_fields.hpp:24-47 | the last nanosecond and the last number accepted, and their refused successors |
| `CsvFields.SpellingsAgreeIff` | src/backtest/csv_fields.hpp:37-47 | the ms, us and ns spellings of an instant are read alike exactly from 10^12 ms on, or at zero |
| `CsvFields.NotThisWholeCentury` | src/backtest/csv_fields.hpp:37-40 | the start of 2001 is an instant whose spellings are read differently |

## Left out

- The engine itself (L2Book, L3Book, Oms, QuoteManager, RiskEngine, MatchingEngine, MsgRing) and the other codecs.
- Byte decoding of ITCH messages: a message is a value with its fields; the mids the scorer records for markouts, and the markouts, are not modelled.
- Widths of the book's integers: quantities are unbounded, so overflow of int64 level sums and of the fixed-point quantities is not modelled; `FixedPoint` and `CsvFields` do model widths.
- IEEE rounding in Python accounting and in the parsing of doubles: money is `real`, and `_parse_double`'s nearest double is not modelled, only the decimal its text denotes.
- Sorting of a session's events by time in the report: `PnlBooks.RunSession` takes them in the order they are processed; the equity, position and inventory columns are left out.
- ItchMerge.Merge: a draw that hits an exhausted stream changes nothing in the original and is not a step here, so termination of the random loop is not modelled.
- ItchStream.MakeStream: asks for live_lo >= 1 and a spread of at most 10001 cents; with live_lo = 0 the original can draw from an empty list, and a wider spread gives negative prices, which the encoder refuses, leaving an empty message in the stream.
- FixedPoint.RoundPriceIsBest: a tick or lot of 0, which raises ZeroDivisionError, is not modelled as a result.
- PnlBooks.AverageCostIsCashFlow: multiplier 1 and no funding, where the two reports speak of the same money.
- Journal.IterEvents: the checksum is a parameter; `Crc32c` and `Journal.DamageShows` are about the one the format uses. File headers, instrument records and event bodies are not decoded.
- InstrumentBooks.InstrumentBook.OnFill: the running totals are one record field, and what is remembered of single fills another.
- InstrumentBooks.ReadFills: a record is an execution or a funding payment with its instrument; symbols and the timeline of mids that markouts use are not read.
- ReplayBoard.Score: asks for a positive bar length (with none the original does not end); the order of symbols is not modelled, and the local hour of a time is a function given from outside.
- BoardAccounts.ThreeAccounts: fees are in quote units, as the board's fill lists have them, and the multiplier is 1.
- SyntheticData.Feed.Run: asks for a positive interval; exponential waits are taken to be non-negative, which a positive rate gives. The text format of rows is not modelled, and inside the bounded loops draws are arbitrary.
- SbeBlocks.AcrossVersions: a field type is of positive size or constant; other types of size 0, which the generator does not refuse, are left out, and a nullValue is taken to be a value of its own type. Variable-length data fields and the decimal conversions are not modelled.
- SbeGroups.GroupsReadBack: a written group is its dimension header and its entries' bytes; the entries' own fields are those of `SbeBlocks`, and a dimension's block length is taken to fit in 16 bits.
- Decimals.RawDec: int() is modelled on ASCII digits with an optional sign, the grammar likewise; Python also takes other Unicode digits, spaces and underscores.
- Decimals.FormatIsExact: starts from the digits and exponent that `repr` gives; the two spellings of zero are left out.
- `markouts`, `read_live`, the HTML report, the command lines and everything that only prints.
