# Mahimahi: link emulation and HTTP parsing, verified

A model, in Dafny, of the parts of mahimahi whose behaviour is easiest to get wrong:

- the trace-driven link with its five queues (infinite, drop-tail, drop-head, CoDel, PIE),
- the incremental HTTP/1.1 parser with its chunked-body parser and its printer,
- the ring buffer between file descriptors, and the two delay queues.

Each component is a specification on values (functions over the fields of the C++ object) on which
the theorems are proved, and, where the C++ object changes in place, a class whose methods do the same
steps on the same fields and are proved to compute the specification function.

| files | component |
|---|---|
| `Text.dfy`, `Message.dfy`, `Names.dfy`, `Chunked.dfy`, `Sequence.dfy` | strings and numbers, messages, header names, the chunked parser, the parser of message streams |
| `ChunkedFraming.dfy`, `Printing.dfy`, `Completion.dfy`, `HeadRules.dfy`, `HttpRuns.dfy` | theorems about framing, printing, what completes a message, what its head decides, whole runs and forwarding |
| `HttpParser.dfy` | the parser objects |
| `Packets.dfy`, `Dropping.dfy`, `Codel.dfy`, `CodelCounts.dfy`, `CodelClock.dfy`, `CodelQueue.dfy`, `Pie.dfy`, `PieQueue.dfy`, `Discipline.dfy` | packets and the queues |
| `Schedule.dfy`, `Link.dfy`, `LinkQueue.dfy` | the schedule, the link and the link object |
| `LinkRuns.dfy`, `LinkLog.dfy`, `LinkDiscards.dfy`, `LinkDepartures.dfy`, `LinkPersistence.dfy`, `LinkClocked.dfy` | theorems about the link: whole runs, the log and its balance, departures, what CoDel discards, and links whose queue reads the clock |
| `Scenarios.dfy`, `CodelScenario.dfy`, `PieScenario.dfy` | runs worked out with numbers |
| `ByteStream.dfy`, `DelayQueues.dfy` | ring buffer and delay queues |

Everything outside the program is a parameter: readings of the clock, random numbers, how many bytes a
read or write moved. An exception or failed assertion of the C++ code is an error value.

## What the code does where one might expect otherwise

- **Trailers.** With a `Trailer` header the chunked parser looks for a blank line after the last chunk
  header, without it for one CRLF. So a body is framed to the byte iff trailer lines are present just
  when announced (`ChunkedFraming.FramingIsExact`). `ChunkedFraming.AnnouncedButAbsent` is an input where
  the end is missed, `ChunkedFraming.PresentButUnannounced` one where it is reported two bytes early.
- **The two largest chunk sizes.** The test for a complete chunk adds 2 in 32 bits. For 0xfffffffe and
  0xffffffff the sum wraps, and the first byte of such a chunk throws (`ChunkedFraming.WrappingChunkThrows`);
  the theorem on framing excludes just these sizes.
- **Blank header values.** A value of spaces only is kept, and each print adds one. A list of messages
  survives printing and parsing iff each is one that the parser completes and has no such value
  (`HttpRuns.ComesBackJustWhen`); `HttpRuns.BlankValueGrows` is a request that does not.
- **Drop-head with a byte limit.** The assertion in `dequeue` fails when more than one head has to go;
  `Dropping.DroppingPacketQueue.EnqueueDropHead` states exactly when, `Dropping.ByteLimitCanNeedTwoHeads`
  gives the numbers. With a packet limit alone it cannot happen.
- **CoDel.** The packet handed out is always the first one taken; the packets dropped are those behind it,
  because the result of the inner calls is a new variable. They are not logged. A dequeue drops some iff a
  condition on the queue holds that can be seen before it (`Codel.DropsJustUponGuard`), and the log of a run
  balances iff no dequeue met that condition (`LinkDiscards.RunBalances`); `CodelScenario.LogUnbalanced`
  is a run whose log does not balance.
- **Polling.** With the infinite, drop-tail and drop-head queues it makes no difference when the link is
  polled (`Link.PollingIndependence`). CoDel and PIE read the clock when the link takes packets from them,
  so there it does: `CodelScenario.PollingMatters` and `PieScenario.PollingMatters` are runs with the same
  arrivals that come out differently. When two readings make a difference can be seen on the state before
  them: for CoDel exactly (`CodelClock.MomentMatters`), for arrivals at PIE exactly
  (`Pie.ArrivalMomentMatters`), for dequeues of PIE exactly unless the rate meter stops while updates are
  due (`Pie.DequeueMomentMatters`); there agreement suffices but is not needed (`Pie.UpdateCanHide`).
  `LinkClocked.PollVanishes` concludes when a poll of the link makes no difference.
- **Steering of PIE.** Differences of delays are taken as signed 32-bit numbers. While they fit the controller
  steers the right way (`Pie.Steers`); where one does not it can steer the wrong way (`Pie.SteersWrongWay`).

## Model

| member | source | states |
|---|---|---|
| Text.Find | src/http/http_message_sequence.hh:67-84 | `find` returns the first occurrence of the needle, or nothing when there is none |
| Text.FindExtends | src/http/http_message_sequence.hh:67-84 | bytes that arrive later never move a line end already found, and a new one ends among them |
| Text.LineEnds | src/http/http_message_sequence.hh:74-84 | a line without CRLF followed by CRLF and anything is popped as that very line |
| Text.SplitTokens | src/http/tokenize.hh:9-37 | the first and the last token of `split` are what precedes the first and follows the last separator |
| Text.AtoiOfNumeral | src/util/ezio.cc:11-29 | a numeral in a base up to 16 is converted to the sum of digit times base to the power of its place, or throws if that does not fit in 63 bits |
| Text.NumberReads | src/util/ezio.cc:11-29 | blanks, a sign, a prefix in base 16 and a numeral are converted to the signed value, or throw if it does not fit in 64 bits |
| Text.OnlyNumbersRead | src/util/ezio.cc:11-29 | whatever is converted has that form |
| Names.NamesMatch | src/http/http_message.cc:92-128 | two names match iff, after leading spaces, they are of equal length and at each place the characters are the same or the two cases of one letter |
| Names.LookupFirst | src/http/http_message.cc:130-152 | look-up finds the value of the first header whose name so matches, and nothing iff there is none |
| Text.DecimalRoundTrip | src/util/ezio.cc:11-29 | decimal notation of a number below 2^63 is read back as that number |
| Chunked.TurnExtends | src/http/chunked_parser.cc:38-98 | one turn of the loop of `read` is not changed by bytes that arrive later, and a turn that had to wait for them reaches past all bytes received before |
| Chunked.ScanConserves | src/http/chunked_parser.cc:34-101 | the loop of `read` moves bytes from buffer to parsed count without losing any and stops where another call would stop |
| Chunked.ReadKeepsSettled | src/http/chunked_parser.cc:108-123 | between calls parsed plus buffered bytes equal input bytes; hence the assertion that parsed exceeds acknowledged never fires, and an offset lies inside the input of the call |
| Chunked.ReadSplits | src/http/chunked_parser.cc:34-123 | reading a then b is reading a followed by b: same parser state and counters, same end, same failure |
| Chunked.ScanLocal | src/http/chunked_parser.cc:79-91 | where the body ends depends only on the bytes up to there |
| ChunkedFraming.BlankLineFound | src/http/chunked_parser.cc:80-84 | the first CRLFCRLF after trailer lines is the blank line that ends them |
| ChunkedFraming.SizeOfNumeral | src/http/chunked_parser.cc:11-32 | the size read from a size line is the number its hexadecimal numeral stands for (leading zeros, letters of either case), cut to 32 bits, whatever extension follows a semicolon or a space; beyond 63 bits it throws |
| ChunkedFraming.SizeRules | src/http/chunked_parser.cc:11-32 | the size is read from what precedes a semicolon and a space, iff that is a number in base 16 that fits in 64 bits |
| ChunkedFraming.UnreadableSizeThrows | src/http/chunked_parser.cc:38-48 | a size line that cannot be read throws |
| ChunkedFraming.UnendedChunkThrows | src/http/chunked_parser.cc:60-63 | a chunk that is not followed by CRLF fails the assertion |
| ChunkedFraming.BodyEnds | src/http/chunked_parser.cc:34-101 | for every chunked encoding (numerals, extensions, data, trailer lines) followed by anything, the scan ends at its last byte iff trailer lines are present just when announced and no chunk is of 2^32 - 2 or 2^32 - 1 bytes |
| ChunkedFraming.PiecesAreOneScan | src/http/chunked_parser.cc:34-123 | reading any pieces in turn gives the verdict of one scan of their concatenation, at the piece and offset where it falls |
| ChunkedFraming.FramingIsExact | src/http/chunked_parser.cc:34-123 | for every chunked body (section 3.6.1 of RFC 2616) whose sizes fit in 32 bits, any bytes after it and any cutting: the end reported is the end of the body iff trailers are announced rightly and no chunk is of one of the two largest sizes |
| ChunkedFraming.NoEarlyEnd | src/http/chunked_parser.cc:34-101 | until the last byte of such a body is in, `read` answers npos |
| ChunkedFraming.WrappingChunkThrows | src/http/chunked_parser.cc:60-63 | a size line of one of the two largest sizes, followed by anything, makes the parser throw |
| ChunkedFraming.WrappingAnnounced | src/http/chunked_parser.cc:60-63 | fffffffe is the size line of such a chunk |
| ChunkedFraming.AnnouncedButAbsent | src/http/http_response.cc:46-47 | with trailers announced and none sent, the end of the smallest body is missed |
| ChunkedFraming.PresentButUnannounced | src/http/http_response.cc:46-47 | with a trailer line sent and none announced, the end is reported two bytes early |
| Sequence.StepDecreases | src/http/http_message_sequence.hh:93-138 | every step that asks for another one shortens the buffer or moves a finished body along, so the loop of `parse` ends |
| Sequence.ReadBodySplits | src/http/http_message.cc:38-59 | a body read in two parts is the body read at once, for known length, chunked and to end of connection |
| Sequence.StepStable | src/http/http_message_sequence.hh:93-138 | bytes that arrive later change no step that did not stop, and continue one that did as if they had been there |
| Sequence.LoopExtends | src/http/http_message_sequence.hh:140-152 | parsing, appending and parsing again is appending first; between calls no message is left complete and nothing of a body is left in the buffer |
| Sequence.ParseSplits | src/http/http_message_sequence.hh:140-152 | `parse(a)` then `parse(b)` is `parse(a+b)` for all nonempty a and b and every resting state, for requests and responses: messages, message in progress, leftover, chunk counters, exceptions |
| Sequence.ParseAnyPieces | src/http/http_message_sequence.hh:140-152 | every cutting of a stream has the outcome of parsing it whole |
| Printing.HeaderRoundTrip | src/http/http_header.cc:13-41 | a header survives printing and parsing iff its name has no colon and its value starts with a non-space |
| Printing.ParseHeaderParsed | src/http/http_header.cc:13-41 | what a parsed header line looks like: no colon in the name, no CRLF, no leading space unless the value is blank |
| Printing.ParsedReparses | src/http/http_header.hh:21 | reprinting and reparsing changes only a blank value, by one more space |
| Printing.FramingReparsed | src/http/http_response.cc:24-66 | the space a blank value gains never changes how the body is framed |
| Printing.RequestsReceived | src/http/http_request.cc:9-25 | the messages a request parser completes: GET or HEAD without body, or POST with the body that its first Content-Length, in any spelling of the name, announces |
| Printing.PrintedParses | src/http/http_message.cc:154-174 | a printed message, followed by anything, parses to that message (blank values grown) and leaves what follows |
| Printing.PipelineRoundTrip | src/http/http_message.cc:154-174 | any list of messages, printed one after the other and cut anyhow, parses back with nothing left over, unchanged iff no header value is blank |
| Printing.BodyAdvances | src/http/http_response.cc:68-84 | a body read so far agrees with the framing its headers chose, and a message completes just where its body fits |
| Printing.LoopReceived | src/http/http_message_sequence.hh:93-152 | every message the parser completes has the form that prints and parses back |
| Completion.PostReceived | src/http/http_request.cc:16-21 | a POST whose first Content-Length is a decimal numeral is complete with just the number of bytes the numeral stands for |
| Completion.DecimalLengthReceived | src/http/http_request.cc:16-21 | any body, sent with its length in decimal under any spelling of Content-Length, makes a complete POST |
| Completion.ChunkedResponseReceived | src/http/http_response.cc:38-47 | a response framed as chunked is complete with a chunked encoding iff trailer lines are there just when there is a Trailer header, and no size wraps |
| Completion.PrintedThenClosed | src/http/http_response.cc:58-63 | a response that ends with the connection (or a chunked one cut short) is completed, the same, by printing it and closing the connection |
| Completion.CompletedAtEnd | src/http/http_message.cc:61-77 | the end of the connection completes the message in progress iff it is such a response, throws in any other that has begun, and changes nothing between messages |
| HeadRules.FirstLineRules | src/http/http_response_parser.cc:12-22 | a response cannot begin unless a request waits; it takes the oldest one |
| HeadRules.HeaderLineRules | src/http/http_header.cc:13-41 | a header line is split at its first colon, spaces before the value go unless there is nothing else, and a line without a colon throws |
| HeadRules.RequestRules | src/http/http_request.cc:9-25 | at the end of the headers: no body for GET and HEAD, the first Content-Length for POST; a POST without one or with one that is no number, and any other method, throw |
| HeadRules.BodilessRule | src/http/http_response.cc:30-36 | rule 1 of section 4.4 of RFC 2616: a response with code 1xx, 204 or 304, or to a HEAD request, has no body, whatever its headers |
| HeadRules.ChunkedRule | src/http/http_response.cc:37-47 | rule 2: otherwise, if the last transfer coding is chunked, the body is, whatever a Content-Length says, with trailers expected iff there is a Trailer header |
| HeadRules.LengthRule | src/http/http_response.cc:48-52 | rule 3: otherwise, without a Transfer-Encoding, the first Content-Length fixes the length, and throws if it is no number |
| HeadRules.OpenEndedRule | src/http/http_response.cc:53-65 | rules 4 and 5: otherwise the body ends with the connection, unless the media type is multipart/byteranges or empty, which throws |
| HeadRules.StatusRule | src/http/http_response.cc:13-22 | a status line of fewer than three words, or with an empty code, throws |
| HeadRules.BodilessReceived | src/http/http_response.cc:30-36 | a response of rule 1 is complete with the empty body and no other |
| HeadRules.ChunkedReceived | src/http/http_response.cc:37-47 | a response of rule 2 is complete with a chunked encoding iff trailer lines are there just when there is a Trailer header, and no size wraps |
| HeadRules.LengthReceived | src/http/http_response.cc:48-52 | a response of rule 3 is complete with exactly the bytes its Content-Length announces |
| HeadRules.OthersOpenEnded | src/http/http_response.cc:53-65 | any other response is complete nowhere in the stream, and is one that ends with the connection unless refused |
| HeadRules.BodilessParses | src/http/http_response.cc:30-36 | the parser ends a response of rule 1 at its blank line and leaves what follows for the next message |
| HttpRuns.ParseKeeps | src/http/http_message.cc:61-77 | every call of `parse`, at end of connection too, finds and leaves no message complete, so the assertion in `eof` is unreachable; matching of responses is kept |
| HttpRuns.ResponsesMatchRequests | src/http/http_response_parser.cc:12-27 | in every interleaving of forwarded requests and received bytes the k-th parsed response carries the k-th request |
| HttpRuns.ComesBackJustWhen | src/http/http_message.cc:154-174 | an arbitrary list of messages, printed and parsed in any pieces, comes back unchanged iff the parser completes each of them, none has a blank header value, and responses match their requests |
| HttpRuns.BlankValueGrows | src/http/http_header.cc:13-41 | a request that the parser completes and that does not come back unchanged |
| HttpRuns.ForwardingIsTransparent | src/httpserver/http_proxy.cc:53-92 | whatever a parser has completed, wherever in the next message it is, prints to a stream that the next parser accepts in any pieces with nothing left over: same messages iff no header value was blank |
| HttpRuns.ForwardingToTheEnd | src/httpserver/http_proxy.cc:53-92 | the same when the connection ends after any bytes without an exception, a body ended by the end included, and the forwarded connection is closed too |
| HttpParser.ChunkedBodyParser.Read | src/http/chunked_parser.cc:34-101 | the parser object computes the specified read, fields included |
| HttpParser.HttpMessage.DoneWithHeaders | src/http/http_message.cc:23-29 | the object chooses the framing that `HeadRules` characterises, with a fresh parser for chunked bodies, or throws |
| HttpParser.HttpMessage.ReadInBody | src/http/http_message.cc:38-59 | bytes taken and message afterwards as specified |
| HttpParser.HttpMessage.AtEof | src/http/http_message.cc:61-77 | end of connection completes just bodies that may end so |
| HttpParser.HttpMessageSequence.ParsingStep | src/http/http_message_sequence.hh:93-138 | one step of the object is one specified step |
| HttpParser.HttpMessageSequence.Parse | src/http/http_message_sequence.hh:140-152 | the object's loop ends in the state specified |
| HttpParser.HttpMessageSequence.NewRequestArrived | src/http/http_response_parser.cc:24-27 | a request joins the back of the queue and nothing else changes |
| Packets.SubsequenceCut | src/packet/dropping_packet_queue.cc:20-33 | removing a stretch from a subsequence leaves a subsequence |
| Dropping.DropHeads | src/packet/drop_head_packet_queue.hh:20-29 | the longest suffix that meets the limits |
| Dropping.TailAdmission | src/packet/drop_tail_packet_queue.hh:20-28 | a packet is queued iff one more packet is at most the packet limit and its bytes with those queued are at most the byte limit, where there are such limits |
| Dropping.HeadAdmission | src/packet/drop_head_packet_queue.hh:20-29 | what drop-head leaves is the longest suffix, the packet that arrived included, whose packets and bytes are at most the limits |
| Dropping.DroppingPacketQueue.Accept | src/packet/dropping_packet_queue.cc:73-79 | appends and keeps the counters equal to the queue's bytes and packets |
| Dropping.DroppingPacketQueue.Dequeue | src/packet/dropping_packet_queue.cc:20-33 | removes the head, keeps the counters, and tells whether the closing assertion, that packets and bytes are at most the limits, holds |
| Dropping.DroppingPacketQueue.EnqueueDropTail | src/packet/drop_tail_packet_queue.hh:20-28 | the packet is queued iff it fits under both limits, filling one exactly included; the limits hold afterwards |
| Dropping.DroppingPacketQueue.EnqueueDropHead | src/packet/drop_head_packet_queue.hh:20-29 | the assertions hold iff at most one head has to go, and then the queue is the longest suffix within limits |
| Dropping.PacketLimitDropsOneHead | src/packet/drop_head_packet_queue.hh:20-29 | with a packet limit alone one head at most has to go |
| Dropping.ByteLimitCanNeedTwoHeads | src/packet/drop_head_packet_queue.hh:20-29 | a byte limit, a queue and a packet for which two heads would have to go |
| Codel.SpacingIsFloor | src/packet/codel_packet_queue.cc:56-60 | the control law adds the floor of interval / sqrt(count) |
| Codel.SpacingShrinks | src/packet/codel_packet_queue.cc:56-60 | drops come no further apart as their count grows |
| Codel.DequeueSafe | src/packet/codel_packet_queue.cc:62-94 | every dequeue keeps count at or above its last value and the limits, never takes from an empty queue, and removes packets off the front in order: the one handed out, then the dropped |
| Codel.NextDropNotOverdue | src/packet/codel_packet_queue.cc:73-90 | after a dequeue that goes on dropping, the next drop is not overdue |
| CodelCounts.StartsUponGuard | src/packet/codel_packet_queue.cc:83-85 | a queue that is not dropping starts to just when the condition for a discard holds |
| CodelCounts.ResumesWith | src/packet/codel_packet_queue.cc:86-90 | dropping starts with count - lastcount if that exceeds 1 and the last drop was due less than 16 intervals ago, else with 1; lastcount is set to it, and the next drop is due the floor of interval / sqrt(count) later |
| CodelCounts.ResumesInWidth | src/packet/codel_packet_queue.cc:86-90 | the same for all counts, times and intervals, in the widths of the fields |
| CodelCounts.DequeueSchedules | src/packet/codel_packet_queue.cc:68-81 | while dropping, the next drop moves by the spacing of every drop made |
| CodelCounts.CountIsLooks | src/packet/codel_packet_queue.cc:62-94 | in every run count - lastcount is the number of `dodequeue` calls of the drop loop since dropping last started |
| Codel.DoDequeueTracked | src/packet/codel_packet_queue.cc:27-54 | a drop is allowed iff the queue is above target and was so at every `dodequeue` for at least an interval |
| Codel.DropsJustUponPersistentDelay | src/packet/codel_packet_queue.cc:27-94 | in every run under a clock that does not go back, a dequeue discards packets iff an unbroken series of `dodequeue` calls at least an interval long saw the wait reach the target and more than 1504 bytes left queued, and, when already dropping, the next drop is due |
| LinkPersistence.DropsJustUponPersistentDelay | src/frontend/link_queue.cc:210-274 | the same on the link: in every run from a fresh link in which the readings do not go back, at every packet taken others are discarded iff the queue was above target at every look for at least an interval, and, when dropping already, the next drop is due |
| Codel.DropsJustUponGuard | src/packet/codel_packet_queue.cc:27-94 | a dequeue discards packets iff, seen before it, the deadline is set and has passed, the head has waited the target, more than 1504 bytes are behind it, and, when dropping, the next drop is due |
| CodelClock.MomentMatters | src/packet/codel_packet_queue.cc:27-94 | for any state and any two readings of the clock after the arrivals, a dequeue leaves the same state iff the readings agree on the head, and on the loop's drops packet by packet; the packet handed out is the same in any case |
| CodelClock.MomentMattersFlat | src/packet/codel_packet_queue.cc:27-94 | unless a drop of the loop is due at the earlier reading: they differ iff enough bytes are behind the head, it has waited the target at the later, and it had not at the earlier, or no deadline was set, or one passes between, or dropping starts or goes on |
| CodelQueue.CodelPacketQueue.DoDequeue | src/packet/codel_packet_queue.cc:27-54 | the object computes the specified `dodequeue` |
| CodelQueue.CodelPacketQueue.Dequeue | src/packet/codel_packet_queue.cc:62-94 | the object's drop loop ends and leaves the specified state and packet |
| CodelQueue.CodelPacketQueue.Enqueue | src/packet/codel_packet_queue.cc:97-104 | drop-tail admission, with the limits met afterwards |
| Pie.SteersBySigns | src/packet/pie_packet_queue.cc:149-173 | the probability moves by the signs of two 32-bit differences, delay less reference and delay less last delay, and stays put where both are zero |
| Pie.Steers | src/packet/pie_packet_queue.cc:149-173 | hence the right way while these differences are less than 2^31 |
| Pie.SteersWrongWay | src/packet/pie_packet_queue.cc:149-150 | a delay 2^31 above the reference takes the probability to 0 |
| Pie.StepSize | src/packet/pie_packet_queue.cc:136-173 | while the differences fit, the probability moves by (delay - reference + 10 (delay - last delay)) / 1024, / 256 or / 128 as it is below 0.01, below 0.1 or not, is cut at 0 and 1, and decays by the factor 0.98 just when nothing is queued and both delays are 0; the delay is the bytes queued over the average rate |
| Pie.UpdateElse | src/packet/pie_packet_queue.cc:175-185 | 30 ms are accounted for, the burst allowance goes down by as many, and measuring begins anew just when the probability is 0 with both delays below half the reference and a rate known |
| Pie.MeasureIs | src/packet/pie_packet_queue.cc:82-119 | the rate meter in plain numbers: when it starts, counts, samples bytes over time, shortens the burst allowance, and stops |
| Pie.AverageWeighs | src/packet/pie_packet_queue.cc:96-101 | the average is seven eighths of the old one and an eighth of the sample, to within a unit |
| Pie.CatchUpIsDue | src/packet/pie_packet_queue.cc:126-188 | catching up runs exactly ceil((now - last) / 30) - 1 updates and never overtakes the clock |
| Pie.CatchUpConfluent | src/packet/pie_packet_queue.cc:126-188 | catching up to t1 and then t2 is catching up to t2 |
| Pie.ArrivalMomentMatters | src/packet/pie_packet_queue.cc:35-53 | an arrival at two readings of the clock, with one random number, has the same outcome iff the same number of updates is due |
| Pie.MeterMomentMatters | src/packet/pie_packet_queue.cc:82-119 | the rate measurement ends alike at two readings iff the meter stays idle, or takes no sample, or stops and leaves the same average and burst allowance; otherwise, if it does not stop, the time stamps differ |
| Pie.DequeueMomentMatters | src/packet/pie_packet_queue.cc:79-124 | a dequeue ends alike for two pairs of readings if the meter agrees on the first ones and the same number of updates is due at the second ones; and only if, unless the meter stops while updates are due |
| Pie.UpdateCanHide | src/packet/pie_packet_queue.cc:178-185 | in that case the converse fails: readings that leave different averages, which the next update resets |
| Pie.RefusedJust | src/packet/pie_packet_queue.cc:35-77 | an arrival is queued iff it fits under both limits and the random number is not below a probability in force: no burst allowance, at least 3008 bytes queued, delay or probability not small |
| Pie.BurstProtects | src/packet/pie_packet_queue.cc:56-60 | while a burst allowance outlasts the updates due, only the limits refuse a packet, whatever delay and random numbers; once an update is due, for a maximum below 2^31 |
| Pie.HugeBurstVanishes | src/packet/pie_packet_queue.cc:175 | an allowance of 2^31 or more is gone with the next update, unless that begins a new one |
| Pie.AverageBetween | src/packet/pie_packet_queue.cc:96-101 | the shifted integer average lies between the old average and the sample |
| Pie.EveryRunBounded | src/packet/pie_packet_queue.cc:35-188 | in every run the drop probability is in [0,1], the burst allowance within its maximum, the average rate between the extreme samples since its reset, and the limits are met |
| PieQueue.PiePacketQueue.Update | src/packet/pie_packet_queue.cc:136-187 | one pass of the catch-up loop as specified |
| PieQueue.PiePacketQueue.CalculateDropProb | src/packet/pie_packet_queue.cc:126-188 | the object's loop catches up as specified |
| PieQueue.PiePacketQueue.Enqueue | src/packet/pie_packet_queue.cc:35-53 | catch up, then admit, refuse or drop early as specified |
| PieQueue.PiePacketQueue.Dequeue | src/packet/pie_packet_queue.cc:79-124 | the head is handed out, the rate measured and the probability caught up as specified |
| Discipline.DequeueLaw | src/packet/abstract_packet_queue.hh:10-25 | for all five queues: packets leave off the front in order, and only CoDel discards any behind the one handed out |
| Discipline.EnqueueLaw | src/packet/abstract_packet_queue.hh:10-25 | for all five queues: an arrival leaves the queue as it was or a suffix of the queue with the packet at its back |
| Discipline.ArrivalLaw | src/packet/abstract_packet_queue.hh:10-25 | admission for all five queues in plain numbers: always; if it fits under both limits (drop-tail, CoDel, and PIE unless it drops early); or always, keeping the longest suffix that fits |
| Discipline.EnqueueGrowth | src/frontend/link_queue.cc:175-176 | the assertions after an enqueue hold: at most the packet that arrived was added |
| Schedule.TimeLaw | src/frontend/link_queue.cc:42-47 | a line of a trace is read iff it is a number that fits in 64 bits, and then as that number |
| Schedule.LoadTrace | src/frontend/link_queue.cc:42-64 | a file is accepted iff every line is a numeral and the times are nondecreasing, at least one, and not all zero; an empty or non-numeric line is refused |
| Schedule.DecimalTraceLoads | src/frontend/link_queue.cc:42-64 | a list of times written in decimal loads as itself iff it is a valid trace |
| Schedule.UseIsLater | src/frontend/link_queue.cc:185-208 | delivery times never decrease |
| Schedule.ClosedForm | src/frontend/link_queue.cc:185-208 | after n opportunities of a repeated trace the next is at base + (n / len) * last + schedule[n % len]; unrepeated, each line is used once and then there is none |
| Link.RationalizeServesDue | src/frontend/link_queue.cc:213-253 | `rationalize` ends, having served exactly the opportunities due |
| Link.RationalizeConfluent | src/frontend/link_queue.cc:210-253 | with an infinite, drop-tail or drop-head queue `rationalize(t1)` then `rationalize(t2)` is `rationalize(t2)`, whatever the clock shows in each call |
| Link.PollsVanish | src/frontend/link_queue.cc:263-274 | with an infinite, drop-tail or drop-head queue, removing all polls from a timed run changes nothing in the end |
| Link.PollingIndependence | src/frontend/link_queue.cc:210-274 | with infinite, drop-tail or drop-head queue, the same timed arrivals give the same log, packets sent and final state whatever the polls and the clock readings between |
| LinkClocked.CodelMoment | src/frontend/link_queue.cc:223-230 | the link takes a packet from a CoDel queue with the same outcome at two readings of the clock iff the state agrees on them |
| LinkClocked.PieTakeMoment | src/frontend/link_queue.cc:223-230 | the link takes a packet from a PIE queue with the same outcome at two moments if the queue agrees on their readings; and only if, unless the meter stops while updates are due |
| LinkClocked.PollVanishes | src/frontend/link_queue.cc:213-274 | with any of the five queues a poll makes no difference to a later event if, at every packet it takes, the state of the queue agrees on the readings of both, which without a clock it always does |
| CodelScenario.PollingMatters | src/frontend/link_queue.cc:263-274 | a CoDel link and four arrivals that leave one packet waiting or two, as it was polled meanwhile or not |
| LinkClocked.PieMoment | src/frontend/link_queue.cc:158-183 | a packet is admitted to a PIE queue with the same outcome at two readings iff the same number of updates is due |
| PieScenario.PollingMatters | src/frontend/link_queue.cc:263-274 | a PIE link and arrivals of which the last is refused or accepted, as it was polled meanwhile or not |
| LinkDepartures.FillDrains | src/frontend/link_queue.cc:218-251 | for each of the five disciplines, the inner loop sends the bytes of the backlog in order, as a reference drain of jobs does, unless the queue discards (CoDel only) |
| LinkDepartures.FillWorks | src/frontend/link_queue.cc:218-251 | for all five disciplines, the inner loop puts exactly the bytes of the opportunity on the link, or fewer and leaves nothing waiting |
| LinkDepartures.ServeConservesWork | src/frontend/link_queue.cc:213-253 | for all five disciplines, an opportunity leaves bytes unused only if queue and transit slot are empty |
| LinkDepartures.DepartureTime | src/frontend/link_queue.cc:213-253 | a waiting packet departs at exactly the ceil(S / 1504)-th upcoming opportunity, S being the bytes waiting up to its last; with CoDel as long as nothing is discarded |
| LinkRuns.FillKeeps | src/frontend/link_queue.cc:222-251 | the inner loop keeps order, balance, causality and the log of departures |
| LinkRuns.EveryRun | src/frontend/link_queue.cc:158-274 | every run from a fresh link keeps the invariant: all waiting packets arrived before the next delivery time, and the rest |
| LinkRuns.RunSendsInOrder | src/frontend/link_queue.cc:158-253 | for each of the five disciplines, what is sent is a subsequence of what arrived, unaltered; for the infinite queue a prefix |
| LinkLog.AdmitLogs | src/frontend/link_queue.cc:158-183 | an arrival is logged with time and size, and behind it, iff anything was lost, how many packets and bytes were |
| LinkLog.LogListsEvents | src/frontend/link_queue.cc:106-135 | in every run the log lists the packets of the run as they came and the first so many opportunities of the schedule, at their times |
| LinkRuns.RunConserves | src/frontend/link_queue.cc:106-183 | for each of the five disciplines, logged departures are just the packets sent, with positive delays, and arrivals equal departures, drops, what waits (a packet in transit in full) and what the queue discarded at dequeue, which only CoDel does |
| LinkDiscards.LoadUnbalances | src/frontend/link_queue.cc:223-230 | taking a packet out of the queue keeps the log balanced iff the condition for CoDel to discard does not hold before it |
| LinkDiscards.RunBalances | src/frontend/link_queue.cc:106-183 | in every run from a fresh link logged arrivals equal departures, drops and what waits, in packets and bytes, iff no dequeue of the run met that condition; without CoDel always |
| CodelScenario.LogUnbalanced | src/packet/codel_packet_queue.cc:73-90 | a run of a CoDel link whose log does not balance, and one whose log does |
| LinkQueue.LinkQueue.UseADeliveryOpportunity | src/frontend/link_queue.cc:194-208 | the schedule advances as specified and the opportunity is logged at its time |
| LinkQueue.LinkQueue.FillOpportunity | src/frontend/link_queue.cc:218-251 | the inner loop with its four assertions, all proved, computes the specified state |
| LinkQueue.LinkQueue.Rationalize | src/frontend/link_queue.cc:213-253 | the nested loops end in the specified state and keep the invariant |
| LinkQueue.LinkQueue.ReadPacket | src/frontend/link_queue.cc:158-183 | an oversized packet throws and changes nothing; any other is received as specified, assertions included |
| LinkQueue.LinkQueue.WritePackets | src/frontend/link_queue.cc:255-261 | everything sent and not yet written goes out, in order |
| LinkQueue.LinkQueue.WaitTime | src/frontend/link_queue.cc:263-274 | catches up first; the next opportunity then lies ahead, and the answer is the time to it cut to 32 bits, or, when the trace is used up, the time to the largest 64-bit number cut to 32 bits |
| ByteStream.Counts | src/util/bytestream_queue.cc:20-30 | the two counts are the bytes waiting and size - 1 less those; a read is offered all the room, and a write all the bytes, up to the end of the storage |
| ByteStream.PushAppends | src/util/bytestream_queue.cc:32-62 | a push appends to the waiting bytes and overwrites none of them |
| ByteStream.PopTakes | src/util/bytestream_queue.cc:64-87 | a pop writes out the oldest bytes and keeps the others |
| ByteStream.RunFifo | src/util/bytestream_queue.cc:10-87 | in every run popped bytes followed by those waiting are the bytes pushed, and used plus free space is size - 1 |
| ByteStream.ByteStreamQueue.PushFrom | src/util/bytestream_queue.cc:32-62 | the storage and index after a read are as specified; end of file on an empty chunk |
| ByteStream.ByteStreamQueue.PopTo | src/util/bytestream_queue.cc:64-87 | the bytes taken followed by the bytes waiting are what waited before |
| DelayQueues.FrontSplits | src/frontend/delay_queue.cc:15-22 | testing only the front of a sorted queue emits exactly what is due |
| DelayQueues.SplitUnique | src/frontend/adv_delay_queue.cc:267-274 | there is just one way to split a queue into what is due and what is not |
| DelayQueues.OutputSorted | src/frontend/adv_delay_queue.cc:256-274 | release times of the output never go back over a whole run, whatever the delays |
| DelayQueues.FifoEmitsAsPriority | src/frontend/delay_queue.cc:10-22 | with one delay for all, both queues emit the same packets at every write |
| DelayQueues.DelaysFollowBytes | src/frontend/adv_delay_queue.cc:88-128 | a TCP packet gets its rule's first delay iff the earlier packets at that address and port carried fewer bytes than the limit |
| DelayQueues.CountersAreTotals | src/frontend/adv_delay_queue.cc:103-110 | the byte and packet counters are the totals per address and port |
| DelayQueues.NoReturn | src/frontend/adv_delay_queue.cc:112-127 | a connection that has its second delay never returns to the first |
| DelayQueues.PriorityRunExists | src/frontend/adv_delay_queue.cc:256-274 | every list of reads and writes has a run of the priority queue |
| DelayQueues.DelayQueue.ReadPacket | src/frontend/delay_queue.cc:10-13 | the packet joins the back with its release time, and the queue stays sorted as long as the clock does not go back |
| DelayQueues.DelayQueue.WritePackets | src/frontend/delay_queue.cc:15-22 | writes the front packets due by the last reading of the clock, which for a queue kept under a forward clock are all that are due, and keeps it so |
| DelayQueues.DelayQueue.WaitTime | src/frontend/delay_queue.cc:24-37 | zero just when a write would emit something, else the time to the front's release |
| DelayQueues.ReadLaw | src/frontend/adv_delay_queue.cc:224-265 | what becomes of a packet, by its bytes: refused, or released after the default, a fixed delay, or one of the two delays of its TCP rule, whose counters move |
| DelayQueues.ReleasesFollowBytes | src/frontend/adv_delay_queue.cc:88-128 | over any run of packets read, a TCP packet with a rule is released after the first delay of the rule iff the earlier ones at that address and port carried fewer bytes than the limit |
| DelayQueues.AdvDelayQueue.GetDelay | src/frontend/adv_delay_queue.cc:146-254 | the delay for a packet, and its rule's counters moved, or an exception: neither IPv4 nor protocol number 6, or a look-up that throws |
| DelayQueues.AdvDelayQueue.ReadPacket | src/frontend/adv_delay_queue.cc:256-265 | the bytes are counted; a packet too short for an IP header, or one without a delay, throws; any other joins the queue with its release time, and its rule's counters move |
| DelayQueues.AdvDelayQueue.WritePackets | src/frontend/adv_delay_queue.cc:267-274 | writes, in order of release, exactly the packets due by the last reading of the clock |
| DelayQueues.AdvDelayQueue.WaitTime | src/frontend/adv_delay_queue.cc:276-289 | zero just when something is due, else the time to the earliest release |
| DelayQueues.AdvDelayQueue.GetDelayForTcp | src/frontend/adv_delay_queue.cc:101-127 | delay and counters as specified, once the rule is found |

## Left out

- Sockets, tunnel devices, NAT, DNS, TLS, processes, the poller and event loops: operating-system plumbing.
- Graphs and live plots, protobuf conversion, the backing store and the replay server.
- Fixed-width overflow of the byte and packet counters, of CoDel's drop count, of times (a clock at 2^64 - 1 too), and of the delay queues' wait times, which are narrowed to `unsigned`.
- A chunk of 2^32 - 2 or 2^32 - 1 bytes that is already in the buffer in full when its size line is parsed: the model throws there too.
- LinkQueue.LinkQueue.WaitTime: asks for a clock below 2^64 - 1, at which the C++ never returns once the trace is used up.
- `strtol` reading the locale: numerals follow the C locale. Hexadecimal, sign, leading blanks, range and truncation to the field's width are modelled.
- Rounding of `double`: PIE's probability is a real number, and CoDel's square root is exact before truncation.
- PieQueue.PiePacketQueue.CalculateDropProb: does not model a clock behind the last update, where the C++ loop would run until the unsigned difference of times has wrapped; the model does nothing then.
- The clock going back: CoDel's iff and the delay queues' order assume a clock that does not; the link's theorems about order, balance and work do not.
- LinkQueue.LinkQueue.ReadPacket: asks for a nonempty packet, because an empty one would fail the assertion at src/frontend/link_queue.cc:233 when its turn comes; a read of the tunnel device that gives no bytes is end of file.
- Discipline.EnqueueLaw: with a byte limit on a drop-head queue the C++ can stop at a failing assertion, exactly when `EnqueueDropHead` says; the link theorems then describe the run as it goes on without assertions.
- Calling queues through the abstract class: the link object holds the queue as a value and selects the discipline by matching on it, so aliasing of the queue object is not captured. The CoDel and PIE objects are proved against the same functions the match selects.
- The counters of the infinite queue: they are those of `DroppingPacketQueue` without limits.
- What `complete_messages_.pop()` removes: the model keeps all completed messages. The chunked parser that a completed message still owns is dropped at completion; no code reads it again.
- Looking up the delay rule of a packet by its headers, and parsing of rule files: the outcome of the look-up is a function of the packet's bytes, given with the rules.
- The order of packets with equal release times in the priority queue: the C++ library leaves it open, and so does the model.
