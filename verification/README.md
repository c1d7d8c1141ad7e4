# Event book: a model of recording, normalizing and replaying a market

The system records a venue's WebSocket messages in a journal, normalizes them into events, keeps an
order book from them, and can later replay the journal. Its promise is that a book marked valid is never
silently wrong and that a replay reproduces the live run exactly. This project models that chain and
proves the promise, link by link:

- **Order book** (`Book`, `BookAnswers`, `BookRuns`, `BookDepth`, `BookDigest`, `Digest`, `HashedBytes`,
  `StreamCollisions`, `Prices`, `MarketStates`, `SessionCounters`). `OrderBook` and
  `MarketState` are classes updated in place, proved against steps on values. Over those steps: soundness,
  refinement to "latest snapshot plus the deltas since", agreement with the venue under every loss, repeat,
  reordering and disconnection, every answer and counter exactly, exactly which books share a state-hash stream,
  and the invalid-time clock.
- **Texts** (`Text`, `Decimals`, `Amounts`, `Calendar`, `Timestamps`, `TimeFormat`). Fixed-point decimals and
  RFC 3339 time, parsers written as the index loops they are; the calendar, which the program takes from its
  standard library, is defined here from the Gregorian rules.
- **Journal** (`Lines`, `JsonValues`, `JournalRecords`, `SegmentNames`, `Journal`, `JournalNames`,
  `JournalSchedule`, `JournalReading`, `JournalDocuments`). Writer, splitter and reader are classes; the outside
  world of an operation (does this write succeed, what does the clock say, what is in the directory) is a value
  given to it.
- **Protocol** (`Events`, `WsProtocol`, `WireMessages`, `OtherMessages`, `VenueDocuments`, `PriceConventions`).
  Messages to events; what a document says, field by field and in any spelling, as the partner of the parser; which
  messages have a document; and the two price conventions.
- **Replay and live** (`SessionMetadata`, `Replay`, `ReplayMeaning`, `LiveSession`, `SessionRecords`, `Collector`,
  `CollectorRuns`, `VenueToReplay`). The replay loops, the collector's handlers, that they agree, also through the
  files, and the promise from the venue's text on.
- **Remote loops** (`MarketQueries`, `Pagination`, `Backoff`). Query text, cursor pagination, reconnect delay.

Two libraries appear only as assumptions, stated where they are used: JSON `dump` and `parse` are an inverse
pair whose output is one non-empty line (`JsonValues.Faithful`), and a decompressor is a source of chunks,
possibly empty, possibly corrupt. Times are microseconds and 64-bit quantities are bounded explicitly.

What the code does, where its documentation or a reader might expect otherwise:

- The offset basis of the digest is 1469598103934665603, one digit short of the published FNV-1a constant; the
  model takes it as written (src/book/order_book.cpp:13). Only the layout of what is hashed (`StreamLayout`) names it.
- The state hash's stream carries no lengths, so it does not always determine the book. Two books share it exactly
  when one is the other with its best ask, of a size with the byte 65 on top, read as a worst bid
  (`StreamsCoincideIff`, `AmbiguousIff`, `MarkerSizeCollides`).
- The successor of 2^64-1 is 0. The venue numbers from 1; should a delta be numbered 0 after 2^64-1, the book takes
  it as a continuation, and is then the venue's book begun with message 0 exactly if it held nothing
  (`NumberZeroAgreesIff`, `WrapAroundBreaksIt`).
- `depth` adds without a check. Signed overflow has no defined result; the model wraps, and says exactly when the
  sum is exact (`DepthExactIff`, `DepthOverflows`).
- The least 64-bit value formats and does not parse back (`FormatParse`).
- A formatted instant is read back exactly in UTC years 0000 to 9999 (`TimeFormat.FormatParse`).
- The journal's version check compares 32 bits of the version, so 2^32+1 passes as 1 (`VersionCheckTruncates`).
- After 1000 names of one second the writer reuses the last one (`LastNameReused`); the naming results ask for a free
  counter, which is exactly when the name is new (`FreshIff`).

## Model

| member | source | states |
|---|---|---|
| Book.ApplyQuantityDelta | include/eventbook/common/quantity.hpp:86-98 | A delta is applied exactly when the true sum is a size that fits 64 bits; the error says on which side it is not, although the guards differ by sign of the delta. |
| Book.LevelsOfLastPositive | src/book/order_book.cpp:140-154 | A price repeated in a snapshot keeps its last positive entry, and a price with none is absent. |
| Book.SnapshotKeeps | src/book/order_book.cpp:119-163 | A snapshot keeps the book sound (levels positive, in bounds, on grid, sequence and subscription present exactly when valid), makes it valid when accepted, and otherwise empties it or leaves it alone as invalidates_book says. |
| Book.DeltaKeeps | src/book/order_book.cpp:165-226 | An accepted delta continues the same subscription at the next sequence number and changes exactly one level, by exactly its amount; a rejected one empties the book or leaves it alone; soundness is kept. |
| BookAnswers.DeltaAnswers | src/book/order_book.cpp:165-226 | Each of the nine reasons a delta can be refused for, and acceptance, exactly when it is the answer, in terms of the numbers: a gap iff it is for this book and subscription and later than the successor of the last number, regressed iff at most the last, out of bounds, off the grid, below zero, above 2^63-1; and what is left of the book. |
| BookAnswers.SnapshotAnswers | src/book/order_book.cpp:119-163 | A snapshot is refused for its market, or for its first entry, bids before asks, that is out of bounds, else off the grid, else negative, and accepted exactly otherwise; which refusals empty the book. |
| Book.OrderBook.Invalidate | src/book/order_book.cpp:111-117 | Back to the empty book, all five fields. |
| Book.OrderBook.ApplySnapshot | src/book/order_book.cpp:119-163 | The in-place update with its early returns has exactly the effect and the rejection of the value-level step. |
| Book.OrderBook.ApplyDelta | src/book/order_book.cpp:165-226 | Likewise for a delta: all checks in their order, then the level inserted, changed or erased. |
| Book.OrderBook.BestBid | src/book/order_book.cpp:228-233 | The largest bid price, present exactly when the book is valid and has bids. |
| Book.OrderBook.BestAsk | src/book/order_book.cpp:235-240 | The smallest ask price, present exactly when the book is valid and has asks. |
| Book.OrderBook.IsCrossed | src/book/order_book.cpp:282-286 | Crossed exactly when valid with some bid at or above some ask. |
| Book.Accumulate | src/book/order_book.cpp:255-272 | The counting loop adds the first n sizes, wrapping at 64 bits. |
| Book.OrderBook.Depth | src/book/order_book.cpp:251-273 | The wrapped sum of the sizes at the n best prices; zero when invalid. |
| BookDepth.DepthIsBest | src/book/order_book.cpp:251-273 | When the total fits, depth is the sum of the sizes over the set of the n best prices of the side, or of all if there are fewer: each in the set is better than each outside. |
| BookDepth.TopOfBook | src/book/order_book.cpp:228-263 | The depth of one level is the size at the best bid or ask. |
| Book.OrderBook.Hash | src/book/order_book.cpp:288-306 | The loop over both sides digests exactly the byte stream of the state. |
| BookRuns.RejectionEffect | src/book/order_book.cpp:71-94 | A rejection has exactly the effect invalidates_book names, and a valid book turns invalid only by a disconnection or such a rejection. |
| BookRuns.SinceSnapshot | src/book/order_book.cpp:119-226 | Over any run, every level of a valid book is its size in the latest snapshot plus the sum of the deltas accepted since, with no disconnection between. |
| BookRuns.Recovery | src/book/order_book.cpp:156-162 | From an accepted snapshot on, the past does not matter: any sound book and a fresh one end alike. |
| BookRuns.Refinement | src/book/order_book.cpp:119-226 | A valid book after any run has a latest snapshot, adds up from it, and equals a fresh book fed only from it on. |
| BookRuns.NeverSilentlyWrong | src/book/order_book.cpp:119-226 | If, since some point where the book was not valid (the start, a disconnection, an invalidating rejection), each (subscription, sequence number) names one venue message and no delta of this market is numbered 0, then after any run of drops, repeats, reorderings and disconnections, and however the entries of a snapshot are ordered, a valid book holds, at every side and price, exactly the venue level as of the sequence number it reports. |
| BookRuns.OrderIrrelevantIff | src/api/ws_protocol.cpp:210-228 | The order of a snapshot side, which the unstable sort leaves open among equal prices, does not matter to the book if and only if entries that repeat a price agree on its size, those without size aside. |
| BookRuns.NumberZeroAgreesIff | src/book/order_book.cpp:179-185 | What a delta numbered 0 does: only a book at 2^64-1 accepts it, and the result is the venue book begun with message 0 if and only if the book held no levels. |
| BookRuns.WrapAroundBreaksIt | src/book/order_book.cpp:179-185 | Such a run: snapshot 2^64-1 with 10 contracts, then delta 0 of 5 more at that price; the valid book holds 15 where the venue book of message 0 holds 5. |
| BookRuns.SoundIsReached | src/book/order_book.cpp:119-163 | Every sound valid book is what one accepted snapshot makes of an empty book, so what is shown of sound books is shown of reachable ones. |
| BookRuns.TracksVenue | src/book/order_book.cpp:119-226 | The other direction: if every message arrives in order and is acceptable, the book is valid throughout and follows the venue to the last number. |
| Digest.PrimeInjective | src/book/order_book.cpp:13-19 | Multiplying by the digest prime modulo 2^64 loses nothing (through its inverse modulo 2^64). |
| Digest.StepInjective | src/book/order_book.cpp:16-19 | The digest step is injective in the digest for each byte and in the byte for each digest. |
| Digest.OneByteDetected | src/book/order_book.cpp:16-31 | Equal-length streams that differ in exactly one byte never share a digest. |
| Digest.StepUndone | src/book/order_book.cpp:16-19 | The step run backwards: multiplying by the inverse of the prime and taking the byte out again gives the digest before. |
| HashedBytes.BytesInOrder | src/book/order_book.cpp:16-31 | Bytes are taken in order, each mixed in by exclusive or and then multiplied by 1099511628211 in 64 bits. |
| HashedBytes.StreamLayout | src/book/order_book.cpp:288-306 | What is hashed, read back from the bytes: the ticker, 1 or 0 for validity, the last number (0 for none) low byte first, then after B all bids and after A all asks, each level once, best first, price before size. |
| Digest.WordInjective | src/book/order_book.cpp:21-25 | The eight little-endian bytes fed for an integer determine it. |
| StreamCollisions.StreamsCoincideIff | src/book/order_book.cpp:288-306 | Two sound books feed the digest the same bytes if and only if they have one status and one last sequence number and their sides are equal, or one is the other with its best ask at p, of a size with the A marker (65) as top byte, replaced by a worst bid at 65+256p of 256 times the rest of that size. |
| StreamCollisions.AmbiguousIff | src/book/order_book.cpp:288-306 | Which sound books share their stream with another one, read off the book: those whose best ask has a size between 65*2^56+1 and 65*2^56+2^55-1 and whose price 65+256p is allowed and below every bid, and those whose worst bid is at such a 65+256p with a size divisible by 256 and p allowed and below every ask. |
| StreamCollisions.StreamInjective | src/book/order_book.cpp:288-306 | Hence a book whose best ask has no size with 65 as top byte, all sizes below 2^56 included, is determined by its stream among such books in everything but the subscription. The markers carry no lengths. |
| StreamCollisions.MarkerSizeCollides | src/book/order_book.cpp:293-304 | Two accepted snapshots of one market with one stream: an ask of 65*2^56+1 units at price 0, and a bid of 256 units at price 65. |
| BookDigest.SingleByteDifferenceDetected | src/book/order_book.cpp:288-306 | Two books of one ticker whose equal-length streams differ in one byte have different hashes. |
| BookDigest.TickerDetected | src/book/order_book.cpp:288-290 | Books of two tickers of one length that differ in one character have different hashes. |
| BookDigest.MissedSequenceDetected | src/book/order_book.cpp:291-292 | A book that missed one sequence number hashes differently, unless the low byte rolls over. |
| BookDigest.BestKeysFirst | include/eventbook/book/order_book.hpp:71-72 | Each side is iterated strictly best price first and every price once. |
| BookDigest.DepthExactIff | src/book/order_book.cpp:251-273 | The total depth accumulates is the true sum of the best n sizes exactly when that sum fits a signed 64-bit integer. |
| BookDigest.DepthOnGrid | src/book/order_book.cpp:251-273 | On a valid grid with levels at most (2^63-1)/10001 there are at most 10001 levels a side and depth is exact, non-negative and monotone in n. |
| BookDigest.DepthOverflows | src/book/order_book.cpp:262 | The book of an accepted snapshot with 2^62 units at any two prices: its true depth is 2^63 and the unchecked sum wraps to the minimum. |
| Prices.ValidatePriceGrid | src/api/eligibility.cpp:17-50 | The nested loops accept exactly the non-empty grids of well-formed, pairwise disjoint bands, and report the first band problem, else the overlap. |
| Prices.BandAnswers | src/api/eligibility.cpp:22-33 | What is wrong with a band, exactly: no positive step or width, an end outside 0 to 10000, or a width that is no multiple of the step. |
| Prices.GridsAccepted | src/api/eligibility.cpp:17-50 | The accepted grids: at least one band, each a whole number of steps within the bounds, and no price within two of them. |
| Prices.GridUnambiguous | src/common/price.cpp:31-41 | On a valid grid a price on the grid lies on exactly one band and within the settlement bounds. |
| Prices.BandEndsOnGrid | src/api/eligibility.cpp:29-33 | Both ends of every band of a valid grid are on the grid. |
| Prices.BandPricesCount | src/common/price.cpp:31-41 | A band holds exactly (end-start)/step+1 prices. |
| Prices.GridPricesCount | src/common/price.cpp:31-41 | A grid of sound disjoint bands holds exactly the sum of those counts. |
| Prices.GridBound | src/api/eligibility.cpp:17-50 | Any set of on-grid prices of a valid grid has at most that many members, and that is at most 10001. |
| MarketStates.MarketState.ObserveValidity | src/book/market_state.cpp:11-21 | The clock starts when the book is found invalid, stops and adds up when it is found valid; crossed books are counted. |
| MarketStates.MarketState.Apply | src/book/market_state.cpp:23-54 | One event: the counters, the book and the clock move together as the value-level step says. |
| MarketStates.MarketState.OnDisconnected | src/book/market_state.cpp:56-60 | A loss empties the book, is counted and is seen by the clock. |
| MarketStates.MarketState.Finish | src/book/market_state.cpp:62-67 | Closes the clock, once. |
| MarketStates.SessionBook | src/book/market_state.cpp:23-60 | The book of a session is the run of its book messages, so everything proved of runs holds of sessions. |
| MarketStates.SessionNeverSilentlyWrong | src/book/market_state.cpp:23-60 | A session whose snapshots and deltas, since some point where its book was not valid, are the venue's own, in any order and number, holds the venue's book whenever it is valid. |
| MarketStates.InvalidTimeTelescopes | src/book/market_state.cpp:11-67 | Over any session closed by finish(T), invalid_time is the sum of the elapsed time after each observation that left the book invalid. |
| MarketStates.InvalidTimeBounds | src/book/market_state.cpp:11-67 | With non-decreasing times that sum lies between 0 and T minus the first observation. |
| MarketStates.EveryEventCounted | src/book/market_state.cpp:23-60 | After any session the six event counters sum to the number of events, disconnections are the rest, gaps <= rejected deltas <= deltas, rejected snapshots <= snapshots, crossed observations <= events. |
| SessionCounters.CountersExact | src/book/market_state.cpp:11-60 | After any session each of the eleven counters is the number of observations it is named for; sequence gaps are the deltas of the book's own market and subscription that skipped ahead of a valid book. |
| Decimals.AccumulateDigit | src/common/decimal.cpp:34-41 | The check before the multiplication refuses a digit exactly when the true result does not fit. |
| Decimals.ParseScaledDecimal | src/common/decimal.cpp:63-143 | The loops compute the value-level parser, every error case included. |
| Decimals.ParseComplete | src/common/decimal.cpp:63-143 | Every numeral of the grammar parses to what it denotes, or to Overflow exactly when its magnitude does not fit. |
| Decimals.ParseSound | src/common/decimal.cpp:63-143 | Whatever parses is a numeral of the grammar that prints as the text and denotes the result. |
| Decimals.ParseExact | src/common/decimal.cpp:63-143 | Parsing gives v if and only if the text is such a numeral with magnitude that fits and value v. |
| Decimals.RefusedExactly | src/common/decimal.cpp:63-143 | Cut at the ends of its digit runs, as every text can be, a text gets each error exactly for its reason: missing digits, too many after the point, a value out of range, or a character after what was read; in that order. |
| Decimals.FormatDenotes | src/common/decimal.cpp:145-162 | Formatting, by unsigned magnitude, prints a numeral that denotes the units, the minimum included. |
| Decimals.FormatParse | src/common/decimal.cpp:130-162 | Formatting then parsing is the identity for every 64-bit value but the minimum, which formats and does not parse. |
| Decimals.ParseFormat | src/common/decimal.cpp:63-162 | Parsing then formatting is the identity on canonical text. |
| Amounts.PriceTextRoundTrip | src/common/price.cpp:7-29 | Every non-negative 32-bit price survives its text. |
| Calendar.CivilFromDays | src/common/time.cpp:179-180 | Every day number has a valid Gregorian date that it counts to. |
| Calendar.CivilRoundTrip | src/common/time.cpp:166-180 | Day count and date are inverse for every valid date, before 1970 and before year 0 too. |
| Calendar.YearLength | src/common/time.cpp:154-159 | The leap rule and the day count agree: a year adds 365 or 366 days. |
| Calendar.DaysMonotone | src/common/time.cpp:166-167 | Later dates have larger day numbers. |
| Timestamps.ReadFixedDigits | src/common/time.cpp:23-39 | Succeeds exactly on `count` digits in range, advances only then, and yields their value. |
| Timestamps.Consume | src/common/time.cpp:41-47 | Advances past exactly the expected character. |
| Timestamps.ParseRfc3339 | src/common/time.cpp:75-174 | The index-driven parser computes the value-level one, every error case included. |
| Timestamps.ReadStampSound | src/common/time.cpp:91-152 | Accepted text, and text refused for its date or time of day, is exactly the rendering of the parts read. |
| Timestamps.StampRefused | src/common/time.cpp:122-152 | Text of the right shape is refused exactly for its offset, then its date, then its time of day. |
| Timestamps.TextRefused | src/common/time.cpp:75-140 | Text of any other shape is empty, malformed, or has a wrong offset before further text. |
| Timestamps.ReadStampComplete | src/common/time.cpp:91-152 | Every well-formed stamp is read back from its text. |
| Timestamps.SixDigitsTruncate | src/common/time.cpp:103-120 | Padding short fractions and dropping digits past the sixth is truncation to microseconds. |
| Timestamps.ParseExact | src/common/time.cpp:75-174 | Text parses to an instant if and only if it renders a well-formed stamp whose local time minus offset, truncated to microseconds, is that instant (RFC 3339, section 5.6). |
| Timestamps.InstantSpelledOut | src/common/time.cpp:122-172 | The instant a text is read as, in microseconds of its date, time, fraction and offset: +hh:mm makes it that much earlier, -hh:mm that much later. |
| TimeFormat.FieldsOf | src/common/time.cpp:176-187 | Flooring splits every instant, also before 1970, into valid fields that add up to it. |
| TimeFormat.FormatParse | src/common/time.cpp:75-192 | Parsing what was formatted gives the instant back if and only if its UTC year is 0000 to 9999. |
| TimeFormat.TextOrderIsTimeOrder | src/common/time.cpp:176-192 | In those years formatted instants compare as text exactly as in time (RFC 3339, section 5.1). |
| TimeFormat.YearReads | src/common/time.cpp:189-192 | A year is printed in at least four characters, a negative one after a minus sign. |
| TimeFormat.SegmentStamp | src/data/journal.cpp:44-62 | The character loop keeps what the value-level squeeze keeps. |
| TimeFormat.StampIsCompact | src/data/journal.cpp:44-62 | That is the compact date and time, sixteen characters to the second. |
| TimeFormat.StampOrder | src/data/journal.cpp:40-62 | Stamps of later instants are equal (same second) or later as text. |
| TimeFormat.EpochText | src/common/time.cpp:176-192 | Instant 0 prints as 1970-01-01T00:00:00.000000Z, which fixes the origin of the day count. |
| JournalRecords.DecodeEncode | src/data/journal.cpp:142-243 | Every record survives its journal line, and the line is non-empty and has no newline. |
| JournalDocuments.RecordExact | src/data/journal.cpp:98-243 | A line's document is read as a record if and only if its fields say that record: version 1 in 32 bits, kind by its name, each field under its own, absent or mistyped optional ones as none. |
| JournalDocuments.RecordRefused | src/data/journal.cpp:172-226 | Otherwise the first required field that is missing, mistyped or of a wrong value decides the error, with its name. |
| SegmentNames.ChooseName | src/data/journal.cpp:270-277 | The probing loop takes the first free counter below 1000, else the last. |
| SegmentNames.FreshIff | src/data/journal.cpp:270-277 | The chosen name is not taken if and only if one of the 1000 names of the second is free. |
| SegmentNames.LastNameReused | src/data/journal.cpp:270-277 | When none is free the last one, numbered 999, is chosen again. |
| SegmentNames.RoomByCount | src/data/journal.cpp:270-277 | Fewer than 1000 names of a second leave a free one. |
| SegmentNames.NextNameLater | src/data/journal.cpp:265-277 | With a clock that does not go back and no deletions, the next name is later as text than the newest one. |
| JournalNames.NameLayout | src/data/journal.cpp:260-277 | A segment is named prefix, stamp of the instant it was opened, three digits, .jsonl or .jsonl.zst; the digits are the least not taken, or 999. |
| SegmentNames.ListJournalSegments | src/data/journal.cpp:418-441 | The filtered and sorted listing. |
| SegmentNames.ListedExactly | src/data/journal.cpp:418-441 | The listing is sorted and holds each name as often as the directory if it starts with the prefix and has .jsonl in it, and no other. |
| SegmentNames.ListingIsCreationOrder | src/data/journal.cpp:418-441 | If names were created in text order, listing them in any directory order gives creation order. |
| Journal.JournalWriter.Write | src/data/journal.cpp:344-372 | Buffering, flushing, the early return on a failed flush, and rotation by size or time, as the value-level step says. |
| Journal.JournalWriter.Flush | src/data/journal.cpp:374-395 | Success, failed block and failed stream flush, with their counters. |
| Journal.JournalWriter.Rotate | src/data/journal.cpp:397-408 | Flush, then a new segment; the open error wins over the flush error. |
| Journal.WriterConserves | src/data/journal.cpp:344-408 | Under any pattern of failures the lines written are a list of batches, one a flush, and then the buffer; the blocks on file are exactly the accepted batches, whole, one each and in order; the other batches are what is counted as dropped, each with a counted failure; no batch exceeds max(1, flush_every) lines and the buffer stays below it; without failures every batch is accepted. |
| Journal.LinesConserved | src/data/journal.cpp:344-408 | In lines: records written = lines on file + lines in the buffer + dropped; the lines on file are the lines written with whole dropped batches left out, in order; dropped <= failures * max(1, flush_every). |
| Journal.WriterReadBack | src/data/journal.cpp:344-408 | Without failures and after a flush, the segments hold exactly the lines written, in order, and no line is split across segments. |
| Journal.SegmentSizeBound | src/data/journal.cpp:361-371 | With rotate_bytes > 0 and no failure, every closed segment is shorter than rotate_bytes plus one line, the open one with its buffer shorter than rotate_bytes. |
| JournalSchedule.FlushAnswers | src/data/journal.cpp:374-395 | A flush answers WriteFailed, and counts it, exactly if the stream is closed or refuses the block or its own flush; it empties the buffer either way. |
| JournalSchedule.RotateAnswers | src/data/journal.cpp:397-408 | A rotation begins a segment exactly if the file opens; its answer is CannotOpen, else that of the flush. |
| JournalSchedule.WriteRotatesExactly | src/data/journal.cpp:344-372 | A write begins a segment if and only if the size or the age of the current one was reached, no flush failed before and the file opened; its answer and all counters in every case. |
| JournalSchedule.RotatesOnSchedule | src/data/journal.cpp:361-371 | In a failure-free run a write begins a new segment if and only if the text of the current one, buffer and line included, reaches rotate_bytes, or rotate_interval has passed since it was opened. |
| JournalSchedule.TotalsCounted | src/data/journal.cpp:344-408 | Over any run, whatever fails: records and bytes written are those of the lines handed over, segments created those there are. |
| JournalNames.NamesAscend | src/data/journal.cpp:260-288 | Over any run with such a clock, no deletions and a free counter at every open, segment names strictly ascend as text. |
| JournalNames.ListingIsRunOrder | src/data/journal.cpp:418-441 | Hence the directory lists a run's segments in the order it created them. |
| JournalNames.OwnDirectory | src/data/journal.cpp:425-440 | In a directory that holds just the run's files, in any order, the filter drops none of them and the listing is the order of creation. |
| Lines.LinesConcat | src/data/journal.cpp:561-574 | Splitting distributes over text that ends a line. |
| Lines.LineSplitter.NextLine | src/data/journal.cpp:461-506 | Each call on the buffer, whatever is in it, returns the next line of the text still to come, or the end, or the failure; it terminates. |
| Lines.ChunkingIrrelevant | src/data/journal.cpp:461-506 | For every way of cutting a text into chunks, empty ones included, the lines delivered are those of the whole text, as getline gives them. |
| Lines.LinesBeforeDamage | src/data/journal.cpp:496-502 | A corrupt chunk delivers exactly the complete lines before it, then the failure. |
| Lines.FullLinesExact | src/data/journal.cpp:461-506 | The complete lines of a text are all lines of what comes before its unterminated last one. |
| JournalReading.GetLine | src/data/journal.cpp:561-567 | Plain text: the first line and the rest. |
| JournalReading.JournalReader.NextRecord | src/data/journal.cpp:547-584 | The loop skips blank lines, counts every line, and returns the next record or the error with its line number. |
| JournalReading.ItemsAreRepeatedReads | src/data/journal.cpp:547-584 | Calling next again and again yields exactly the items of the text. |
| JournalReading.ItemsExactly | src/data/journal.cpp:547-584 | A reader yields the records of the non-blank lines in order up to the first that does not decode, reported with its line number from 1; a source that ends in damage is reported after its last line. |
| JournalReading.JournalRoundTrip | src/data/journal.cpp:344-584 | For any records and any flush, size, time and forced-rotation schedule without I/O failure, after a flush the directory lists the segments in order and reading them yields exactly the records written; a compressed segment delivers the same lines for every chunking. |
| JournalReading.ReadBackKept | src/data/journal.cpp:344-584 | After any failures the segments still read back without error, to exactly the records of the accepted batches in order; what is missing is what the writer counts as dropped and what is still in its buffer. |
| WsProtocol.ReadLevels | src/api/ws_protocol.cpp:159-179 | The loop reads every entry or fails; an absent or null array is an empty side. |
| WsProtocol.SnapshotSorted | src/api/ws_protocol.cpp:210-228 | A parsed snapshot holds exactly the levels read, reflected where the convention says, best price first on both sides. |
| WireMessages.DeltaExact | src/api/ws_protocol.cpp:231-260 | A document is heard as a delta if and only if its fields say that delta: number, subscription and ticker, either name of the side, any numeral of the wire grammar for the price of the convention and for the signed size, ts_ms or ts for the time, and any further fields. |
| WireMessages.SnapshotExact | src/api/ws_protocol.cpp:157-229 | A document is heard as a snapshot if and only if its header says it and its sides are the levels its arrays say, entry by entry in any order and numeral, sorted best first; absent or null arrays say an empty side. |
| OtherMessages.TradeExact | src/api/ws_protocol.cpp:262-304 | A document is heard as a trade of a market if and only if its fields say one: sid, ticker, trade_id, price, size, a boolean or no is_block_trade, and one of the three taker fields naming a side. |
| OtherMessages.AckExact | src/api/ws_protocol.cpp:306-322 | As an acknowledgement if and only if the envelope has an integer id and the body channel and sid. |
| OtherMessages.ErrorExact | src/api/ws_protocol.cpp:324-344 | As an error if and only if the body has an integer code and a msg; the ticker is kept if it is a text. |
| OtherMessages.UnhandledExact | src/api/ws_protocol.cpp:380-425 | As unhandled if and only if its type is a text other than the five known ones. |
| OtherMessages.RefusedForFirst | src/api/ws_protocol.cpp:20-425 | A document that is not heard is refused for the first thing it lacks, envelope before body and field by field, with the kind of error and the field named. |
| WireMessages.MessageHeard | src/api/ws_protocol.cpp:157-260 | However the venue spells a message, the event heard tells the book that message: the same delta, or the same entries per side. |
| VenueDocuments.DocumentExistsIff | src/api/ws_protocol.cpp:20-260 | A message has a document that says it if and only if its quoted prices fit 32 bits and are not negative, its sizes are not negative, its change is not the least 64-bit value, and entries that repeat a price agree on its size. |
| VenueDocuments.FurtherFieldsFree | src/api/ws_protocol.cpp:157-260 | Further fields of envelope or body do not change what a document says. |
| PriceConventions.MirroredMessagesAgree | src/api/ws_protocol.cpp:366-373 | A message under NO-leg pricing and one with the same values but its NO prices p quoted as 10000-p under YES-leg pricing, in any spelling and any order of distinct prices, readable or not, normalize to one result. |
| PriceConventions.OneMessageOneEvent | src/api/ws_protocol.cpp:157-260 | Documents that say one message of the venue, each under its own convention and in its own spelling, are heard as one event. |
| PriceConventions.ConventionsAgree | src/api/ws_protocol.cpp:193-260 | Whole streams under the two conventions give the same observations, hence the same book, counters and clock after every message. |
| SessionMetadata.MetadataRoundTrip | src/replay/replay.cpp:35-90 | A journal's description of itself (ticker, convention, build, price bands) is read back exactly. |
| JournalDocuments.MetadataExact | src/replay/replay.cpp:51-90 | A description is read as given metadata if and only if it says it: texts for ticker and convention, no_leg or anything else, a build or none, bands with 32-bit fields, absent ones 0. |
| JournalDocuments.MetadataRefused | src/replay/replay.cpp:51-90 | Otherwise the error names ticker, convention or the first band that cannot be read. |
| Replay.ReplayRecord | src/replay/replay.cpp:123-176 | One pass of the loop, each record kind and each early return, moves the counters, the metadata and the market object as the value-level step says. |
| Replay.ReplaySegments | src/replay/replay.cpp:92-199 | The nested loops compute the replay of the items, segment after segment, stopping at the first problem, and the closing part. |
| ReplayMeaning.FailsExactly | src/replay/replay.cpp:92-199 | When a replay fails and with what: with the first thing wrong in the items of its segments, one after the other, be it a damaged line or frame, a session record that does not decode, a record before any session record, or under strict replay a message that does not parse; else because no session record was met, or there was no segment. |
| ReplayMeaning.SuccessIsUndamaged | src/replay/replay.cpp:103-117 | In particular a replay that succeeds met no damaged item in any segment. |
| ReplayMeaning.ReportsExactly | src/replay/replay.cpp:92-199 | What a replay that succeeds reports: the metadata it went by, how many records, messages, other records and unparseable messages there were, first and last time, and counters, clock and hash of the session that observes the parsed messages and the losses in order. |
| Replay.SegmentationIrrelevant | src/replay/replay.cpp:103-198 | Any two non-empty ways of cutting one list of items into segments give the same outcome, and the same result but for the segment count. |
| Replay.CountersAddUp | src/replay/replay.cpp:123-176 | On success records = messages + lifecycle records, and messages - parse failures = the sum of the six event counters. |
| LiveSession.LiveMarketStep | apps/collect.cpp:271-345 | One more frame or loss moves the live market by its own event only; an unparseable frame does not move it. |
| SessionRecords.FrameLine | apps/collect.cpp:201-248 | The journal line of a frame holds its text, the instant and connection, and repeats type, number and market of the document in it; a frame that is not heard is kept as unparsed. |
| SessionRecords.LifecycleLines | apps/collect.cpp:162-198 | Header, loss and end of a session are lines of their own kinds under the session's market. |
| SessionRecords.FooterCounts | apps/collect.cpp:363-382 | Each number in the closing record is the count of what it is named for over the whole session. |
| LiveSession.LiveEqualsReplay | apps/collect.cpp:162-388 | For every sequence of frames, parseable or not, and disconnections, replaying the session's records in any segmentation gives the live counters, invalid time and state hash; with stop-on-failure it fails exactly if a frame did not parse; under overriding metadata it gives the session those would have given. |
| LiveSession.FooterAudits | apps/collect.cpp:363-382 | The counters and the hash in the closing record are those a replay computes. |
| LiveSession.JournalReproducesLive | src/replay/replay.cpp:92-199 | Through the files: whatever the flush and rotation schedule, if no write fails, the listed segments replay to the live run. |
| VenueToReplay.ValidMeansVenue | apps/collect.cpp:162-388 | The promise end to end: if every frame since some point where the live book was not valid says some message of the venue, in any spelling, or is no book message, then under any loss, repetition, reordering and disconnection a valid live book is the venue's, and every replay of the journal reproduces its hash and the session's counters. |
| VenueToReplay.FrameExistsIff | src/api/ws_protocol.cpp:20-260 | What those frames can carry: a venue message can be a frame if and only if it is within the ranges of the wire, carries its own numbers, and is no delta of this market numbered 0. |
| Collector.Collector.WriteHeader | apps/collect.cpp:162-178 | The handler hands the header to the journal and changes nothing else. |
| Collector.Collector.OnEvent | apps/collect.cpp:299-345 | The event is applied at the instant its frame was journalled; the recovery flag and the reconnect request follow the rejection, as the value-level step says. |
| Collector.Collector.OnMessage | src/api/ws_session.cpp:322-359 | Journal first, then counters, then the event if the frame parsed: object, writer and flags move as the value-level step says. |
| Collector.Collector.OnDisconnected | apps/collect.cpp:271-289 | A loss is journalled and empties the book at the same instant. |
| Collector.Collector.Close | apps/collect.cpp:359-388 | The market is closed, the footer made from its final state and written, the journal flushed. |
| CollectorRuns.SessionMarket | apps/collect.cpp:271-345 | After any inputs, and whatever the journal writes do, the handlers' market and counters are those of the inputs. |
| CollectorRuns.SessionWritten | apps/collect.cpp:162-345 | The lines the handlers hand to the journal are the header's and one per input, in order. |
| CollectorRuns.SessionReplays | apps/collect.cpp:162-388 | The closed session, objects and files together: the market is the one of the inputs, and if no write failed the listed segments replay to it. |
| CollectorRuns.RejectedOrValid | apps/collect.cpp:333-344 | What the book says to an event decides whether it is left valid: a book turns invalid exactly by an invalidating rejection. |
| CollectorRuns.ReconnectAnswers | apps/collect.cpp:299-345 | An event that makes a valid book invalid is answered by a reconnect request; one is made only for an invalid book and not again before the next snapshot. |
| CollectorRuns.ReconnectsExactly | apps/collect.cpp:296-345 | A new snapshot is asked for if and only if the event lost a valid book or was a snapshot of this market that was refused; nothing else of the state moves. |
| CollectorRuns.SessionWaits | apps/collect.cpp:299-345 | So in every session a request stands only while the book is invalid. |
| MarketQueries.PercentEncode | src/api/market_query.cpp:17-32 | The loop encodes byte by byte. |
| MarketQueries.EncodedOne | src/api/market_query.cpp:11-32 | Letters, digits and - _ . ~ stay (RFC 3986, section 2.3); any other byte becomes a percent sign and two upper-case hex digits. |
| MarketQueries.DecodeEncoded | src/api/market_query.cpp:11-32 | Decoding by RFC 3986, section 2.1, undoes the encoding of any bytes, whatever follows. |
| MarketQueries.QueryRoundTrip | src/api/market_query.cpp:34-41 | Splitting a query at the separators and decoding the values gives the parameters back, whatever the values contain. |
| MarketQueries.BuildMarketQuery | src/api/market_query.cpp:74-87 | The conditional appends build the text of limit, series, status and cursor, the absent ones left out. |
| MarketQueries.MarketQueryRoundTrip | src/api/market_query.cpp:74-87 | The request decodes to exactly the parameters meant. |
| MarketQueries.RequestSays | src/api/market_query.cpp:45-87 | What a server reads in a request: the limit in decimal, series, status by its name and cursor if there are any, and nothing else. |
| MarketQueries.RequestsDiffer | src/api/market_query.cpp:83-85 | Different cursors make different requests. |
| Pagination.FetchAllMarkets | src/api/market_query.cpp:105-134 | The loop with both guards. |
| Pagination.SucceedsExactly | src/api/market_query.cpp:105-134 | Against a server whose page depends only on the request, fetching succeeds if and only if the cursor chain reaches the empty cursor within max_pages. |
| Pagination.SuccessCollects | src/api/market_query.cpp:105-134 | A fetch whose chain ends with page n, be it the first, returns the markets of pages 0 to n in order. |
| Pagination.NoPageTwice | src/api/market_query.cpp:105-134 | No two requests of such a fetch are alike. |
| Pagination.NotAdvancingExactly | src/api/market_query.cpp:121-126 | CursorNotAdvancing is reported if and only if some page within the limit comes with the non-empty cursor it was asked for, every earlier page being there and moving on. |
| Pagination.StuckForever | src/api/market_query.cpp:121-126 | And then no page limit would have been enough. |
| Pagination.LimitReachedExactly | src/api/market_query.cpp:130-133 | PageLimitReached is reported exactly when that many pages were fetched, the cursor moved each time, and there was more to come. |
| Pagination.RequestFailsExactly | src/api/market_query.cpp:110-114 | A failed request is reported if and only if the chain of moving cursors runs into it within the limit. |
| Backoff.ReconnectBackoff | src/api/ws_session.cpp:89-104 | The delay is min(cap, initial*2^attempt) for a positive initial delay whenever no doubling overflows, and 0 for any other. |
| Backoff.DoubledIsPower | src/api/ws_session.cpp:95-102 | The delay before the cap is the initial one times two to the attempt. |
| Backoff.OverflowFreeCaps | src/api/ws_session.cpp:95-102 | No doubling overflows for every initial delay and attempt if and only if cap <= 2^62. |

## Left out

- StreamCollisions.StreamInjective: does not recover the subscription, which the hash does not cover.
- WireMessages.MessageHeard: asks that entries that repeat a price agree on its size; otherwise the program's unstable sort leaves open which comes last, and with it the book (BookRuns.OrderIrrelevantIff).
- PriceConventions.ConventionsAgree: asks that rearranged sides have each price once, as it speaks of equal events and not only of equal books.
- Journal.SegmentSizeBound: speaks of failure-free runs; after a failed open no block is accepted, and every further write tries to rotate again.
- JournalReading.JournalRoundTrip: speaks of runs without I/O failure; after failures JournalReading.ReadBackKept says what is read back.
- TimeFormat.FormatParse: covers instants in years -32767 to 32767 of the program; beyond them its calendar type is unspecified, while the model formats every year.
- Digest and hash results: the hash is not collision free and is not claimed to be; the injectivity result is about the stream it is fed.
- Payloads that are not valid UTF-8: the JSON library refuses to dump them, which the inverse pair does not model.
- JSON numbers with a fraction or outside 64 bits, which the library holds as floating point; and metadata band fields that are not numbers: the library raises an exception on the latter; the model reports malformed metadata.
- The order std::sort gives entries of equal price: unspecified in the program, fixed by the model; see BookRuns.OrderIrrelevantIff for when it matters.
- Trade, acknowledgement and error payloads: parsed for success or failure, but only the kind and the ticker are kept, as the book does not use them.
- Error texts, segment paths in errors, and bytes_on_disk: carried along by the program and used by nothing modelled.
- Detecting compression from the first four bytes, the sizes of decompression buffers, fsync and partially written blocks: a segment is its text, and a failed block write adds nothing.
- Opening a segment for append when 1000 names of a second are taken: the name is modelled, the shared file is not.
- 64-bit wrap of counters and byte totals, and 32-bit overflow on price bands that were never validated: counters are naturals, prices integers.
- check_eligibility and universe selection beyond the price grid: one-branch lookups.
- The simulated sequence gap of the collector: it makes live differ from replay on purpose.
- What a reconnect request sets off, timers, transport, signing, REST market parsing, command line and reports: asynchronous or foreign code, or wiring.
