# The Onion Box: verified models

The Onion Box is a monitor for Tor nodes: a Python server that follows a node's events and
statistics, and a browser client that shows them. This project models the parts of it that
compute something intricate, in Dafny, and proves what they are for. `dafny verify
dfyconfig.toml` checks all of it.

| file | models |
|---|---|
| Md5.dfy, Md5Compression.dfy, Utf8.dfy, Rfc1321.dfy, JsNumbers.dfy | the streaming MD5 of js-md5, against RFC 1321 and RFC 3629, in JavaScript's number arithmetic |
| Evaluation.dfy, KnownDigests.dfy | the definition of MD5 worked out on the messages of section A.5 of RFC 1321, so that no constant of it rests on itself |
| Player.dfy | the player that replays frames of data with a fixed delay |
| TimeSeries.dfy, Chart.dfy, Bandwidth.dfy | the sorted series of the charts, their bounds, and the sum over relays in the control center |
| Cards.dfy | the reconciliation of the control center's cards with the server's list, and the page that shows them |
| Authentication.dfy, DigestBinding.dfy, Handshake.dfy | the digest handshake: challenge, answer, check; what a digest binds; with any hash, and with MD5 |
| Logging.dfy, ConsoleWrap.dfy | Tor's events: which are switched on, who gets them, how they are buffered and printed |
| Transportation.dfy | the deferred counting of connections, circuits and streams |
| Onionoo.dfy, Timestamps.dfy | the history charts of the Onionoo documents, their time stamps and their cache |
| Version.dfy | version numbers and tags |
| Strings.dfy, Collections.dfy | `split`, `join`, `strip` and their laws; what several models share |

Objects whose methods update their fields are classes, with the same fields and branches;
a ghost field, where there is one, records what the object has been given. `Valid()` is the
invariant that every method keeps, so what is proved of a valid object holds after every
run of its methods.

## How the code is read

- JavaScript numbers are integers; `&`, `|`, `^`, `~` and the shifts are given by their
  effect on the low 32 bits, and sums that stay untruncated are proved to lie far below
  2^53. The byte counter is assumed to stay exact, that is, below 2^53 within one update.
- The hash's buffer is little-endian memory, as the shifting branch for engines without
  typed arrays spells out. `lastByteIndex` is undefined before the first octet, which acts
  as 0 in the only expressions that use it.
- A string of the client is a sequence of UTF-16 units; one that ends in half a pair reads
  one unit past the end, which counts as 0.
- In the player the clock never goes back and a timer never fires early. The delay is a
  natural number of milliseconds. The callback does not call `append`. A null item ends its
  frame, as in the code; the rest of such a frame is not played.
- Charts have integer values. `binarySearch` is for series of at most 2^30 points, beyond
  which `>>` would wrap.
- A bandwidth event without datapoints, which the server does not send
  (theonionbox/tob/apps/controlcenter.py:698-699), puts a point at the time NaN on the chart.
  No comparison with it is true, so no later append gets past it: the series behind it is a
  series of its own. That a second shows one datapoint of each relay holds as long as the
  points of each card come in order.
- The page container is a list of elements. `after` on a selector that finds several
  elements inserts clones behind all but the last one, as jQuery does; ids of cards that
  still fade out make that happen.
- An integer time stamp of Onionoo is taken as its floating point repair leaves it.
- Python's exceptions are results. Where Python catches everything, as in `authenticate`,
  the model says which inputs lead there.
- What a digest binds is stated for hashes without collisions, of which MD5 is none; for MD5
  the statement is that a wrong answer comes with a collision (`AcceptedOrCollision`).
  Session ids and methods have no colon, as those of the program.
- The nonce and opaque values, the clock readings and what the node's own authentication
  says are parameters.
- `session_id is not self.self_id` compares identities; equal ids are taken to be the same.
- Texts are compared and changed to upper or lower case as ASCII, and `int` reads ASCII
  digits.

## Where the code does something unexpected

- The client means to return null when the first part of a challenge is not two words, but
  `!hh.length === 2` is never true; with one word it fails on an undefined value. The model
  follows the code (theonionbox/scripts/cc.js:6019-6024).
- The answer with qop has a quotation mark behind the qop value that none precedes.
- `get_chart` caches by name only, so it is wrong when one chart is read with two factors;
  its callers never do that (`MixedScales`, `StaleChart`).
- `dropOldData` with a bound of 1 or less reads past the end when every point but the first
  is old.
- A line of a message that starts with a word as wide as the console, or wider, is printed
  with an empty line in front (`FirstLineEmpty`).
- Reading a count before a rebase can change what is counted after it
  (`ReadBeforeRebase`).
- A development or alpha tag of the latest version counts as the latest; only `rc` does not.
- `flush_to_target` with a limit hands over one record more than the limit.
- With a leftover of the same id still on the page, a card can be represented by a clone
  while its own element stands elsewhere (`Ping`, `CloneAppears`).

## Model

| member | source | states |
|---|---|---|
| JsNumbers.RotateIsRotl | theonionbox/libs/js-md5-0.7.3/md5.js:347-347 | `x << s` or-ed with `x >>> 32-s`, on any integer, is the circular shift of the low 32 bits |
| Md5Compression.ChooseFIsF | theonionbox/libs/js-md5-0.7.3/md5.js:359-360 | the rewritten `d ^ (b & (c ^ d))` is F of RFC 1321, for all 32-bit operands |
| Md5Compression.ChooseGIsG | theonionbox/libs/js-md5-0.7.3/md5.js:393-394 | the rewritten `c ^ (d & (b ^ c))` is G of RFC 1321 |
| Md5Compression.SharedXorIsH | theonionbox/libs/js-md5-0.7.3/md5.js:425-433 | the xor shared between two steps gives H for both of them |
| Md5Compression.MixIIsI | theonionbox/libs/js-md5-0.7.3/md5.js:465-466 | `c ^ (b \| ~d)` is I of RFC 1321 |
| Md5Compression.StepIsOperation | theonionbox/libs/js-md5-0.7.3/md5.js:359-360 | one unrolled step, its sum far below 2^53 and truncated late, is one operation of section 3.4 of RFC 1321 with its wrapping additions |
| Md5Compression.FoldedConstants | theonionbox/libs/js-md5-0.7.3/md5.js:346-353 | the folded constants of the first block are the standard's constants with the initial registers worked in |
| Md5Compression.FirstQuad | theonionbox/libs/js-md5-0.7.3/md5.js:346-353 | the constant-folded first four steps give the same registers as four operations from the initial chaining value |
| Md5Compression.GeneralQuad | theonionbox/libs/js-md5-0.7.3/md5.js:355-366 | the first four steps from any chaining value are operations 0 to 3 |
| Md5Compression.Round1 | theonionbox/libs/js-md5-0.7.3/md5.js:369-392 | operations 4 to 15 |
| Md5Compression.Round2 | theonionbox/libs/js-md5-0.7.3/md5.js:393-424 | operations 16 to 31 |
| Md5Compression.Round3 | theonionbox/libs/js-md5-0.7.3/md5.js:425-464 | operations 32 to 47, through the shared xors; the definition they refine has the known digests below |
| Md5Compression.Round4 | theonionbox/libs/js-md5-0.7.3/md5.js:465-496 | operations 48 to 63 |
| Md5Compression.Transform | theonionbox/libs/js-md5-0.7.3/md5.js:342-510 | for every block and chaining value, on both paths: the registers afterwards are the compression function of RFC 1321, the one with the known digests below |
| Evaluation.MixIs | theonionbox/libs/js-md5-0.7.3/md5.js:359-496 | the four auxiliary functions of the definition are the bitwise functions of 32-bit vectors |
| Evaluation.Next | theonionbox/libs/js-md5-0.7.3/md5.js:359-496 | one operation of the definition on known registers: sum, rotation and carries given in figures |
| KnownDigests.FirstBlock | theonionbox/libs/js-md5-0.7.3/md5.js:342-510 | the compression function on the first block of a message of 62 octets, through all 64 operations, in figures |
| KnownDigests.SecondBlock | theonionbox/libs/js-md5-0.7.3/md5.js:342-510 | and on its second block, from the chaining value of the first |
| KnownDigests.EmptyDigest | theonionbox/libs/js-md5-0.7.3/md5.js:522-577 | section A.5 of RFC 1321: no octet gives d41d8cd98f00b204e9800998ecf8427e, as octets and as text |
| KnownDigests.LetterDigest | theonionbox/libs/js-md5-0.7.3/md5.js:522-577 | the letter a gives 0cc175b9c0f1b6a831c399e269772661 |
| KnownDigests.LongDigest | theonionbox/libs/js-md5-0.7.3/md5.js:522-577 | A to Z, a to z and 0 to 9 give d174ab98d277d9f5a5611c2c9f419d9f, over two blocks |
| Rfc1321.PadShape | theonionbox/libs/js-md5-0.7.3/md5.js:320-340 | the padding of any message: the octet 0x80, fewer than 64 zeros, the bit count modulo 2^64, whole blocks |
| Utf8.DecodeEncodeAll | theonionbox/libs/js-md5-0.7.3/md5.js:262-279 | the encoding of RFC 3629 is undone by its decoder, so it is injective on character sequences |
| Utf8.WellFormedIsUtf8 | theonionbox/libs/js-md5-0.7.3/md5.js:262-279 | on well-formed UTF-16 the in-line encoder emits the UTF-8 encoding of the characters |
| Utf8.CutBetweenCharacters | theonionbox/libs/js-md5-0.7.3/md5.js:240-312 | cutting a well-formed string between characters changes no octet |
| Utf8.PiecesAreUtf8 | theonionbox/libs/js-md5-0.7.3/md5.js:240-312 | a string given in any number of pieces, each of whole characters, is hashed as the UTF-8 encoding of the whole |
| Utf8.CutIffWhole | theonionbox/libs/js-md5-0.7.3/md5.js:240-312 | wherever a well-formed string is cut in two, the pieces are hashed like the whole if and only if the first does not end in a high surrogate |
| Utf8.StringExamples | theonionbox/libs/js-md5-0.7.3/md5.js:262-279 | strings of section 7 of RFC 3629 with one to four octets a character, and a surrogate on its own, in figures |
| Md5.StoredIsEncoded | theonionbox/libs/js-md5-0.7.3/md5.js:264-278 | the four branches of shifts and masks store exactly the encoding of the code |
| Md5.CounterWords | theonionbox/libs/js-md5-0.7.3/md5.js:337-338 | from the two-part byte counter, words 14 and 15 are the bit count modulo 2^64, low word first |
| Md5.CountsSplit | theonionbox/libs/js-md5-0.7.3/md5.js:313-316 | moving 2^32 bytes into the upper counter keeps the count |
| Md5.BlockDone | theonionbox/libs/js-md5-0.7.3/md5.js:305-308 | after a compression the buffer's spill word holds exactly the octets that did not fit |
| Md5.PadOneBlock | theonionbox/libs/js-md5-0.7.3/md5.js:325-338 | with room for it, marker, zeros and length in the last block are the padding of sections 3.1 and 3.2 of RFC 1321 |
| Md5.PadTwoBlocks | theonionbox/libs/js-md5-0.7.3/md5.js:327-336 | without room, the marker closes one block and the length a second, which is the same padding |
| Md5.Md5.constructor | theonionbox/libs/js-md5-0.7.3/md5.js:193-203 | an object with a buffer of its own has absorbed nothing |
| Md5.Md5.Shared | theonionbox/libs/js-md5-0.7.3/md5.js:186-203 | so has one on the shared buffer, whatever that held: it is cleared |
| Md5.Md5.Hash | theonionbox/libs/js-md5-0.7.3/md5.js:342-510 | the registers become the compression of the first 64 octets of the buffer |
| Md5.Md5.Carry | theonionbox/libs/js-md5-0.7.3/md5.js:242-247 | the spill word moves to the front, all else is zero |
| Md5.Md5.FillBytes | theonionbox/libs/js-md5-0.7.3/md5.js:251-254 | copies octets up to the end of the block or of the message, none lost |
| Md5.Md5.ReadCode | theonionbox/libs/js-md5-0.7.3/md5.js:263-274 | reads one code and finds the next index, a pair of surrogates taken together |
| Md5.Md5.StoreCode | theonionbox/libs/js-md5-0.7.3/md5.js:264-278 | stores the encoding of one code, at most 4 octets, and touches nothing else |
| Md5.Md5.FillText | theonionbox/libs/js-md5-0.7.3/md5.js:262-279 | encodes until the block is full; at most 3 octets spill over, none lost or doubled |
| Md5.Md5.Step | theonionbox/libs/js-md5-0.7.3/md5.js:240-311 | one pass of the outer loop keeps the streaming invariant and absorbs exactly what it consumes |
| Md5.Md5.Update | theonionbox/libs/js-md5-0.7.3/md5.js:215-318 | whatever the pieces, the object has absorbed the concatenation of their octets; after the end nothing is absorbed |
| Md5.Md5.MakeRoom | theonionbox/libs/js-md5-0.7.3/md5.js:327-336 | without room for the bit count, the block is compressed unless it just was, and what is left of the padding fits the buffer |
| Md5.Md5.Finalize | theonionbox/libs/js-md5-0.7.3/md5.js:320-340 | the registers become the chain over the padded message; a second call changes nothing |
| Md5.DigestOfWord | theonionbox/libs/js-md5-0.7.3/md5.js:567-577 | the four masked shifts of a signed register are its octets, low first |
| Md5.Md5.Digest | theonionbox/libs/js-md5-0.7.3/md5.js:567-577 | MD5, as RFC 1321 defines it and as `KnownDigests` works it out, of everything absorbed |
| Md5.HexOfWord | theonionbox/libs/js-md5-0.7.3/md5.js:522-543 | the eight digits taken from a register are its octets in hexadecimal, low octet first |
| Md5.Md5.Hex | theonionbox/libs/js-md5-0.7.3/md5.js:522-543 | the same digest as lower-case hexadecimal text |
| Md5.HexMd5 | theonionbox/libs/js-md5-0.7.3/md5.js:111-115 | `md5(message)`, on the shared buffer: MD5 of the octets, for a well-formed string of its UTF-8 encoding |
| Md5.HexOfPieces | theonionbox/libs/js-md5-0.7.3/md5.js:143-148 | an object that is given a string in any number of pieces of whole characters has the MD5 of the UTF-8 encoding of the whole |
| Player.RingTail | theonionbox/scripts/box.js:200-209 | slicing moves one cell, round the end of the ring, and leaves the tail of the queue |
| Player.RingAppend | theonionbox/scripts/box.js:294-303 | storing behind the last cell appends to the queue and overwrites no queued frame |
| Player.EffectiveOfData | theonionbox/scripts/box.js:231-242 | a frame without null items is played whole |
| Player.EffectiveIs | theonionbox/scripts/box.js:231-242 | of a frame the whole front up to the first null item is played |
| Player.FlowOfData | theonionbox/scripts/box.js:231-242 | of frames without null items the whole is played, one after the other |
| Player.BoxDataPlayer.constructor | theonionbox/scripts/box.js:169-185 | an empty player with round(delay / 1000) + 10 cells |
| Player.BoxDataPlayer.SliceFrame | theonionbox/scripts/box.js:200-209 | takes the oldest queued frame, or none when the queue is empty |
| Player.BoxDataPlayer.Advance | theonionbox/scripts/box.js:215-244 | one pass: the cursor gives the next datum or strictly less is left; nothing ahead is skipped |
| Player.BoxDataPlayer.LoadNextData | theonionbox/scripts/box.js:211-251 | finds the next datum through as many frames as needed, or nothing is ahead |
| Player.BoxDataPlayer.PlayNextData | theonionbox/scripts/box.js:253-259 | hands the held datum to the callback, not before its stamp plus the delay, and goes on |
| Player.BoxDataPlayer.WaitNextData | theonionbox/scripts/box.js:261-281 | plays what is overdue and arms the timer for the next; terminates on the amount unplayed |
| Player.BoxDataPlayer.Start | theonionbox/scripts/box.js:187-284 | starting a running player plays nothing and leaves one that waits for its timer as it is; the timer is not overdue |
| Player.BoxDataPlayer.Fire | theonionbox/scripts/box.js:253-259 | a timer that fires plays the held datum and keeps the account; whatever is overdue by then is played at once, so the next timer lies ahead |
| Player.BoxDataPlayer.Enqueue | theonionbox/scripts/box.js:294-303 | refuses exactly when N-1 frames are queued, and then changes nothing |
| Player.BoxDataPlayer.Append | theonionbox/scripts/box.js:292-307 | accepted data are played, held or ahead, once and in order, and a pending timer is not overdue; a full ring refuses and is unchanged |
| Player.BoxDataPlayer.IdleMeansPlayed | theonionbox/scripts/box.js:261-264 | a player without a pending timer has played everything it accepted, once and in order |
| TimeSeries.CountIsBoundary | theonionbox/scripts/cc.js:3939-3952 | on a sorted series a boundary between earlier and later points is the number of points up to the time |
| TimeSeries.BinarySearch | theonionbox/scripts/cc.js:3939-3952 | the search returns the number of points with a timestamp of at most the query; the copy in chart.js is the same loop |
| TimeSeries.InsertContents | theonionbox/scripts/cc.js:4032-4044 | inserting at the right place keeps the order and adds one key to the map |
| TimeSeries.ReplaceContents | theonionbox/scripts/cc.js:4034-4039 | changing a value in place updates that key alone |
| TimeSeries.TimeSeries.Locate | theonionbox/scripts/cc.js:4027-4031 | the last point not later than the timestamp |
| TimeSeries.TimeSeries.Append | theonionbox/scripts/cc.js:4017-4047 | at any timestamp: times stay strictly increasing; without summing the time has exactly the new value, with summing the old one and the new one, and no other time changes |
| TimeSeries.TimeSeries.Break | theonionbox/scripts/cc.js:4027-4046 | a point at the time NaN ends the series: what is appended later forms an empty series of its own behind it |
| TimeSeries.TimeSeries.DropOldData | theonionbox/scripts/cc.js:4053-4064 | leaves a suffix, dropping no more and no fewer than it may: afterwards the series is short enough or its second point is in the window; reads past the end exactly when the bound is below 2 and every point but the first is old |
| TimeSeries.DropKeepsWindow | theonionbox/scripts/cc.js:4053-4064 | what is dropped is neither in the window nor the newest point before it |
| Chart.BoxTimeSeries.CheckBounds | theonionbox/scripts/chart.js:1185-1222 | one backward scan: bounds of all values, and bounds of the values in the window with the newest point, both attained |
| Bandwidth.FeedAllShows | theonionbox/scripts/cc.js:8417-8437 | exactly these points reach the chart: the first datapoint of each second, and the last repeated one in an empty second behind it |
| Bandwidth.SecondsAre | theonionbox/scripts/cc.js:8419-8419 | the second of a time stamp in milliseconds, for stamps below 2^31 seconds |
| Bandwidth.FeedAllExample | theonionbox/scripts/cc.js:8417-8437 | four datapoints of one relay in figures: a repeated second is kept back and fills the gap behind it |
| Bandwidth.FeedAllKeepsIncreasing | theonionbox/scripts/cc.js:8417-8437 | the seconds a relay contributes to strictly increase, through gap filling and repeated seconds |
| Bandwidth.AddedKeepsRecords | theonionbox/scripts/cc.js:8409-8441 | also across a switch of the card in charge, and with the zero behind the data |
| Bandwidth.SumIsTotal | theonionbox/scripts/cc.js:8431-8440 | the sum put on a second is one datapoint of each relay, summed up |
| Bandwidth.ContributionIs | theonionbox/scripts/cc.js:8431-8440 | the contribution of a relay to a second is the traffic of its point there, and zero without one |
| Bandwidth.OnePoint | theonionbox/scripts/cc.js:8405-8442 | an event of one datapoint, whatever it fills, puts its own traffic on its second |
| Bandwidth.EventGrows | theonionbox/scripts/cc.js:8405-8442 | an accepted event makes every second grow by the traffic of the points it adds there, the read series by `r`, the written one by `w` |
| Bandwidth.BandwidthChart.constructor | theonionbox/scripts/cc.js:8404-8404 | an empty chart |
| Bandwidth.BandwidthChart.Place | theonionbox/scripts/cc.js:8431-8433 | the read series grows by the point's `r` and the written one by its `w` at its second, and at no other time |
| Bandwidth.BandwidthChart.FeedPoints | theonionbox/scripts/cc.js:8417-8437 | the loop puts on the chart what its specification says, and ends with that record |
| Bandwidth.BandwidthChart.OnBandwidth | theonionbox/scripts/cc.js:8405-8442 | any event: one from another card within 15 seconds changes nothing, one without datapoints starts anew, any other makes the series grow by exactly its points; a single datapoint of a new second adds its own `r` and `w`; records and chart agree as long as each card's points come in order |
| Bandwidth.BandwidthChart.ChartIsSumOverRelays | theonionbox/scripts/cc.js:8405-8442 | in every state reached with each card's points in order, the read and the written value of each second are the sums over the relays of the `r` and the `w` of at most one datapoint each |
| Cards.PlacedNext | theonionbox/scripts/cc.js:7866-7873 | a placement puts the id right behind those placed; it is the card's own element unless the selector finds more than one |
| Cards.PlaceNext | theonionbox/scripts/cc.js:8513-8533 | one more id keeps the account of what leads the container and which elements are clones |
| Cards.KeptHas | theonionbox/scripts/cc.js:8498-8512 | the cards kept are those the server still lists |
| Cards.KeptKeeps | theonionbox/scripts/cc.js:8498-8512 | dropping cards keeps the rest distinct and in charge of their elements |
| Cards.LeftoversAreStrays | theonionbox/scripts/cc.js:8513-8533 | whether a stray element stands in the way can be told from the old cards, the old container and the server's list |
| Cards.CloneAppears | theonionbox/scripts/cc.js:8513-8533 | lists A B, B, A B while the first A fades: the page shows a clone of B, and B's own element stands last |
| Cards.ControlCenter.constructor | theonionbox/scripts/cc.js:8496-8496 | no cards |
| Cards.ControlCenter.FadedOut | theonionbox/scripts/cc.js:7480-7488 | the element of a dropped card leaves the container some time later, and the others stay as they are |
| Cards.ControlCenter.Find | theonionbox/scripts/cc.js:8518-8526 | the first card with the id |
| Cards.ControlCenter.KeepListed | theonionbox/scripts/cc.js:8498-8512 | the cards that are still listed, in their order |
| Cards.ControlCenter.Show | theonionbox/scripts/cc.js:8513-8533 | afterwards every listed id has its card and leads the container in the server's order |
| Cards.ControlCenter.Ping | theonionbox/scripts/cc.js:8496-8535 | cards for exactly the listed ids, the container starting with them in order whatever still fades out; new cards have new elements; the leading elements are the cards' own if and only if no element in the container before had the id of a listed card, the last excepted, without being that card's |
| Logging.EventHandler.constructor | theonionbox/tob/log.py:205-218 | an empty buffer and filter |
| Logging.EventHandler.Switch | theonionbox/tob/log.py:220-224 | sets one level and tells whether that was a change; a level never set counts as one |
| Logging.EventHandler.Emit | theonionbox/tob/log.py:230-233 | up to `capacity` records since it was cleared are all in the buffer, of more the newest `capacity`; the record is the last |
| Logging.EventHandler.Handle | theonionbox/tob/log.py:226-233 | a record reaches the buffer if and only if the filter has its level on |
| Logging.Repeated | theonionbox/tob/log.py:248-251 | a record with the same text keeps a run-length form when the last count goes up |
| Logging.Changed | theonionbox/tob/log.py:252-259 | a record with another text keeps it when a new group follows |
| Logging.GroupsStand | theonionbox/tob/log.py:235-268 | each group stands for records in a row with one stripped text, as many as it counts, with the time and letters of the earliest; the groups stand for all records |
| Logging.EventHandler.Flush | theonionbox/tob/log.py:235-268 | group by group: the records it stands for have its text, its count is their number, time and letters are those of the earliest; neighbours differ and no record is left out |
| Logging.EventHandler.FlushToTarget | theonionbox/tob/log.py:270-283 | hands over the records in order; with a limit, one more than the limit |
| Logging.RemovedOnce | theonionbox/tob/log.py:179-183 | removing the first occurrence from a list without duplicates removes the id |
| Logging.EventSwitchMonitor.Switch | theonionbox/tob/log.py:160-183 | the level's list becomes the right set without duplicates; true exactly when it became empty or ceased to be |
| Logging.SwitchedIsListed | theonionbox/tob/log.py:395-421 | a filter and the monitor switched together still agree |
| Logging.NamesAreRead | theonionbox/tob/log.py:17-24 | the short names and names in lower case are read, and no others |
| Logging.LoggingManager.TorListens | theonionbox/tob/log.py:473-508 | in every state, Tor has one listener for a level if some client has the level on, and none otherwise |
| Logging.LoggingManager.BuffersHoldNewest | theonionbox/tob/log.py:208-208 | in every state, each client's buffer holds the newest of its records, up to its capacity |
| Logging.LoggingManager.constructor | theonionbox/tob/log.py:308-339 | the own client has DEBUG and INFO off and the rest as asked for, and Tor's listeners agree |
| Logging.LoggingManager.Pass | theonionbox/tob/log.py:473-508 | adds or removes one listener, if there is a controller |
| Logging.LoggingManager.Switch | theonionbox/tob/log.py:395-421 | one filter is set and everything stays in step; unknown names and clients change nothing |
| Logging.LoggingManager.AddClient | theonionbox/tob/log.py:346-370 | the filter is set on top of what it was, a new client gets a handler as asked for, others are untouched, and the preserved records are handed over; without an own client that fails |
| Logging.LoggingManager.RemoveClient | theonionbox/tob/log.py:372-393 | the client is gone, others are untouched, Tor stops sending what only it had on |
| Logging.LoggingManager.Shutdown | theonionbox/tob/log.py:423-435 | no client is left and Tor has no listener |
| Logging.LoggingManager.Connect | theonionbox/tob/log.py:468-471 | a fresh controller gets one listener for exactly the levels some client has on |
| Logging.LoggingManager.Deliver | theonionbox/tob/log.py:226-233 | a record of a level is buffered for exactly the clients that the monitor lists for it |
| Logging.LoggingManager.GetEvents | theonionbox/tob/log.py:437-446 | the client's buffer in run-length form; nothing else changes |
| ConsoleWrap.WordsKeepAll | theonionbox/tob/log.py:742-742 | the words of a line have all its characters that are not white space, in order |
| ConsoleWrap.FillFits | theonionbox/tob/log.py:746-766 | every line fits the width |
| ConsoleWrap.FillKeepsWords | theonionbox/tob/log.py:746-766 | no word is broken, lost or moved |
| ConsoleWrap.FillIsGreedy | theonionbox/tob/log.py:751-761 | a line ends only where the next word would not fit |
| ConsoleWrap.WrappedIsRight | theonionbox/tob/log.py:741-766 | the lines of a text fit, break late, and have its words in order, only those longer than the width cut |
| ConsoleWrap.FirstLineEmpty | theonionbox/tob/log.py:746-766 | the first line stays empty if and only if there is no word or the first one fills a line |
| ConsoleWrap.WrappedKeepsAll | theonionbox/tob/log.py:741-766 | the characters that are not white space come out once and in order |
| ConsoleWrap.StackStep | theonionbox/tob/log.py:747-764 | one round of the loop, taking back what it cuts off, follows the simple form, and fewer characters are left on the stack |
| ConsoleWrap.WrapLine | theonionbox/tob/log.py:741-766 | the one-pass loop over the stack terminates and refines cutting the words first and filling the lines then |
| ConsoleWrap.AllWrappedFit | theonionbox/tob/log.py:741-766 | every line of the whole message fits the width |
| ConsoleWrap.SplitLinesKeepAll | theonionbox/tob/log.py:737-737 | splitting into lines drops white space only |
| ConsoleWrap.LinesBehindBreaks | theonionbox/tob/log.py:737-737 | a line feed, alone or behind a carriage return, ends a line; a text without a break is one line |
| ConsoleWrap.SplitLinesWords | theonionbox/tob/log.py:737-742 | the lines of a message have the words of the message |
| ConsoleWrap.CutIs | theonionbox/tob/log.py:756-764 | a word that fits is not cut; a longer one is cut into pieces as wide as the line and a rest |
| ConsoleWrap.AllWrappedWords | theonionbox/tob/log.py:741-766 | all lines together have the words of the message, cut to the width |
| ConsoleWrap.FormattedFits | theonionbox/tob/log.py:734-769 | what is printed with more than 10 columns left: between the line breaks at most that many characters, all but the first part behind exactly the indentation, and the words are those of the message, cut to the width |
| ConsoleWrap.FormattedIsOneLine | theonionbox/tob/log.py:771-772 | with 10 columns or fewer: no line break, the words joined by single blanks |
| ConsoleWrap.Format | theonionbox/tob/log.py:729-772 | the loop returns what the two rows above describe, above a width of 10 and below |
| ConsoleWrap.FormattedKeepsAll | theonionbox/tob/log.py:707-777 | whatever the width, formatting loses, adds and moves nothing but white space |
| Strings.SplitJoin | theonionbox/tob/authenticate.py:48-48 | splitting undoes joining for parts free of the separator |
| Strings.SplitParts | theonionbox/tob/authenticate.py:48-48 | no part contains the separator, nor anything the whole did not contain |
| Strings.StripIs | theonionbox/tob/log.py:246-246 | stripping takes the white space off both ends, all of it and nothing else |
| Authentication.Digest.constructor | theonionbox/scripts/cc.js:5972-5990 | a challenge with the counter at 1 |
| Authentication.Digest.CreateAuthHeader | theonionbox/scripts/cc.js:6000-6053 | the header that belongs to the challenge, whose text `AnswerText` and `QopAnswerText` give and which `AcceptedIffMeant` binds; the counter goes up only with a header |
| Authentication.Session.Authenticate | theonionbox/tob/authenticate.py:10-85 | granted exactly when the answer parses, its digest is right for this id, nonce, method and password, and the node accepts it; every refusal issues the fresh nonce |
| Authentication.AnswerParses | theonionbox/tob/authenticate.py:48-48 | the server reads back all five items of a client's answer |
| Authentication.UriComesBack | theonionbox/tob/authenticate.py:48-48 | the uri comes back as it was sent if and only if it is free of both delimiters |
| Authentication.AnswerScheme | theonionbox/tob/authenticate.py:30-31 | the scheme and the items are taken apart where the client put them together |
| Authentication.OtherScheme | theonionbox/tob/authenticate.py:29-32 | an answer of another scheme is refused, whatever it says |
| Authentication.ChallengeRead | theonionbox/scripts/cc.js:6015-6042 | the client reads the issued realm and nonce, and no qop |
| Authentication.NonceReadIffPlain | theonionbox/scripts/cc.js:6015-6042 | the nonce is read as issued if and only if it has no comma and no equals sign |
| Authentication.NoAnswer | theonionbox/scripts/cc.js:6015-6026 | a challenge without items has no answer; with one word in front of them the client fails |
| Authentication.HandshakeSucceeds | theonionbox/tob/authenticate.py:41-61 | for any hash with clean values: the answer to a challenge is accepted, at any session, method and password, if and only if the digest computed there is the client's |
| DigestBinding.DigestBinds | theonionbox/tob/authenticate.py:50-57 | for a hash without collisions: two digests are equal if and only if id, password, method, uri and nonce are |
| DigestBinding.AcceptedIffMeant | theonionbox/tob/authenticate.py:41-61 | for a hash without collisions: the answer to a challenge is accepted if and only if session id, nonce, method and password are those it was made for |
| DigestBinding.AnswerText | theonionbox/scripts/cc.js:6045-6053 | challenge and answer, character by character |
| DigestBinding.QopAnswerText | theonionbox/scripts/cc.js:6049-6051 | the answer to a challenge with qop, likewise, with the stray quotation mark |
| DigestBinding.EightDigitsAre | theonionbox/scripts/cc.js:6049-6051 | the counter has eight digits, filled up with zeros |
| Handshake.UnitsAreTheCharacters | theonionbox/scripts/cc.js:6045-6049 | a string's UTF-16 form is well-formed and stands for its characters |
| Handshake.ClientMd5 | theonionbox/scripts/cc.js:6045-6049 | the client's md5 of a string is the server's md5 of its UTF-8 encoding |
| Handshake.DigestIsClean | theonionbox/tob/authenticate.py:52-55 | a hexadecimal digest contains no delimiter |
| Handshake.SamePasswordIsAccepted | theonionbox/tob/authenticate.py:41-61 | with the real MD5 on both sides, the answer with the same password is accepted |
| Handshake.AcceptedOrCollision | theonionbox/tob/authenticate.py:41-61 | with the real MD5: where an answer is accepted that was made for another id, nonce, method or password, two strings with one digest have been found |
| Handshake.LogIn | theonionbox/scripts/cc.js:6137-6190 | the login dialog, refusal, challenge, answer and check in a row: access with the node's password, and for a hash without collisions with no other |
| Transportation.DrainedIsLast | theonionbox/tob/transportation.py:62-104 | an id is counted if and only if its last event opened it, or it has none and was counted before |
| Transportation.Base.constructor | theonionbox/tob/transportation.py:8-13 | nothing counted, nothing queued |
| Transportation.Base.Count | theonionbox/tob/transportation.py:15-38 | the number of ids after all queued lines, which are then used up |
| Transportation.Base.Process | theonionbox/tob/transportation.py:68-104 | one line opens or closes its id if it is of the right kind |
| Transportation.Base.Push | theonionbox/tob/transportation.py:47-48 | the line is queued |
| Transportation.Base.Rebase | theonionbox/tob/transportation.py:53-57 | the lines of the report are queued, and the next count starts from nothing |
| Transportation.QueueIsLast | theonionbox/tob/transportation.py:11-11 | the queue holds the last 1000 lines |
| Transportation.ReadsDoNotMatter | theonionbox/tob/transportation.py:15-57 | between rebases the report depends on the lines alone, wherever counts were read |
| Transportation.SameLinesSameReport | theonionbox/tob/transportation.py:15-57 | two runs with the same lines report the same |
| Transportation.AfterRebase | theonionbox/tob/transportation.py:53-57 | after a rebase, an id is counted if and only if its last event among the pending, reported and later lines is an opening one |
| Transportation.ReadBeforeRebase | theonionbox/tob/transportation.py:15-57 | a count read before a rebase, with any lines pushed in between, changes the report if and only if the lines read leave an id open that neither a later line nor the report mentions |
| Transportation.StatusLine | theonionbox/tob/transportation.py:53-57 | a line of a report is read as the event of its id and status |
| Transportation.LineOfText | theonionbox/tob/transportation.py:62-104 | lines of text of the three kinds: which status opens the id, which closes it, every other one ignored, and every other marker |
| Transportation.CircuitExample | theonionbox/tob/transportation.py:77-90 | a circuit is built, another fails, one is extended, one is closed |
| Transportation.ReportLines | theonionbox/tob/transportation.py:53-57 | the lines of a report are queued one by one in order |
| Timestamps.DaysAreCounted | theonionbox/tob/onionoo.py:267-269 | the days are numbered from 1970 on, one by one, through months and leap years |
| Timestamps.StampIsRead | theonionbox/tob/onionoo.py:267-269 | of all texts of that form with a year of four digits and two digits each, exactly the dates and times of day are read, and to the second |
| Timestamps.KnownDays | theonionbox/tob/onionoo.py:267-269 | leap years, and some days by their number |
| Timestamps.WrittenExample | theonionbox/tob/onionoo.py:267-267 | a stamp as it is written, part by part |
| Onionoo.DecodesIff | theonionbox/tob/onionoo.py:228-283 | there is a series if and only if no field is missing, the time stamp can be read and there are enough values |
| Onionoo.FailsBecause | theonionbox/tob/onionoo.py:228-283 | a missing object, a missing field, a bad time stamp and too few values, each with its outcome, in this order |
| Onionoo.FirstPoint | theonionbox/tob/onionoo.py:267-282 | a series starts at the written time stamp |
| Onionoo.SeriesPoints | theonionbox/tob/onionoo.py:248-282 | count + 1 points, one interval apart from the first on, unknown values kept, ending in 0 |
| Onionoo.SeriesValue | theonionbox/tob/onionoo.py:266-280 | a known value is multiplied by the factor of the history and by that of the caller |
| Onionoo.Document.constructor | theonionbox/tob/onionoo.py:131-139 | no data, nothing cached |
| Onionoo.Document.Update | theonionbox/tob/onionoo.py:141-172 | new data empties the cache; the first relay or the first bridge is taken, and data for both at once count as none |
| Onionoo.Document.DecodeHistoryObject | theonionbox/tob/onionoo.py:224-283 | the series of a graph object; a missing object, a missing field, a bad time stamp and too few values are told apart |
| Onionoo.Document.GetChart | theonionbox/tob/onionoo.py:285-320 | cached series are taken as they are, others decoded and kept, also, for a chart read before, when a later one fails |
| Onionoo.PeriodsArrive | theonionbox/tob/onionoo.py:285-320 | each period arrives under its short name, by itself and among all, and only with a series |
| Onionoo.GatherHonest | theonionbox/tob/onionoo.py:285-320 | a cache that agrees with decoding gives what decoding gives |
| Onionoo.Document.ReadChart | theonionbox/tob/onionoo.py:285-320 | with the factor that belongs to a chart, the cached answer is the decoded one, and stays so |
| Onionoo.Bandwidth.Read | theonionbox/tob/onionoo.py:486-490 | what was read, negative, as decoding gives it, after any updates and reads |
| Onionoo.Bandwidth.Write | theonionbox/tob/onionoo.py:492-496 | what was written, likewise |
| Onionoo.Weights.Read | theonionbox/tob/onionoo.py:504-527 | each of the five weights is read from the chart of its name, likewise |
| Onionoo.DecodingsAgree | theonionbox/tob/onionoo.py:266-282 | two factors decode a history alike if and only if they are equal or it has no value but zero |
| Onionoo.MixedScales | theonionbox/tob/onionoo.py:285-320 | a period cached with one factor is right for another if and only if the factors are equal or it has no value but zero |
| Onionoo.StaleChart | theonionbox/tob/onionoo.py:285-320 | a document that shows the difference |
| Version.DecimalIsInt | theonionbox/tob/version.py:104-105 | `int` undoes the printing of a natural number |
| Version.IntExamples | theonionbox/tob/version.py:104-105 | signs, blanks and underscores as `int` takes them, and what it refuses |
| Version.Tag2Version | theonionbox/tob/version.py:90-109 | the method computes the specified triple, IndexError for an empty tag, ValueError for a part that is no number |
| Version.SuffixGoes | theonionbox/tob/version.py:95-98 | a suffix goes, in any spelling and whatever follows it, even text that contains other suffixes |
| Version.TagRoundTrip | theonionbox/tob/version.py:66-109 | a tag printed from three naturals is read back, with or without `v`, a full stop at the end, a suffix |
| Version.VersionExamples | theonionbox/tob/version.py:66-109 | versions and tags in figures |
| Version.LessIsOrder | theonionbox/tob/version.py:75-86 | the comparison is decided by the first component that differs |
| Version.CandidateExample | theonionbox/tob/version.py:75-114 | a release candidate is newer than the version before it, but not the latest of its own |
| Version.RCIsInTail | theonionbox/tob/version.py:112-114 | a tag is a release candidate if and only if `rc` is in what follows the number |
| Version.LatestByNumber | theonionbox/tob/version.py:75-86 | for any two versions: a tag is the latest if its version is not older, a release candidate only if it is newer, component by component |
| Version.OwnTags | theonionbox/tob/version.py:75-114 | of all tags of the latest version, exactly the release candidates are not the latest |
| Version.AnnouncedIsLatest | theonionbox/tob/version.py:66-86 | the tag that is announced as the latest version is the latest |

## Left out

- Network, sockets, SQL, files, configuration, scheduling, HTML and drawing.
- Floating point: number formatting, scale smoothing.
- Onionoo.Document.DecodeHistoryObject: the repair of an integer time stamp with log10 (theonionbox/tob/onionoo.py:260-264), which is floating point; such a stamp is taken as repaired.
- Time stamps with digits outside ASCII.
- MD5's `arrayBuffer`, `base64`, the Node.js wrapper, input type checks, and what objects on the shared buffer do to each other when their calls interleave.
- The RapydScript runtime: lists and dictionaries are sequences and maps.
- `boxDataPlayer.stop`: starting again after it skips the datum that was waited for.
- `minValue` and `maxValue` of a summing series as bounds of the sums: they follow the addends until the next reset.
- `dropOldData` on the two series of the control center, which the renderer calls: what is shown is the sum of what has not been dropped.
- Reconnecting a logging manager to a controller that already has its listeners, a listener call that fails, and removing the manager's own client: the last is modelled, with the KeyError that later additions then raise.
- Which of Python's loggers calls a handler: `Deliver` hands a record to all handlers, each with its filter.
- Basic authentication, and sessions of that kind.
- `Document._is_relay` and `_is_bridge` are never reset, so nothing is said about their excluding each other.
- The lists that `get_chart` returns are shared with the cache in Python; they are values here.
- Logging.LoggingManager.AddClient: a caller that passes an equal but not identical copy of the own id is not told apart.
- The requests around the reconciliation of the cards, and what the cards load and draw themselves.
- Version.Tag2Version: digits and blanks outside ASCII that Python's `int` would also read, and letters whose lower case is longer.
