# A verified model of fastcgi++

This project models the hard parts of fastcgi++, a C++ server library for the FastCGI
protocol, and proves what they promise: that worker threads lose no message and never
run one request twice at a time, that records survive being cut, sent and put together
again in reads of any size, that parsers undo what printers write, and that the mailer
and the session cache keep their books. `dafny verify dfyconfig.toml` checks everything.

Code that several threads run at once is a step system: a state, one function for each
kind of step, and invariants proved for every schedule. Code that one thread runs on an
object is a class, or a method with its loops, proved against a specification function
about which the theorems are. Sockets, clocks, random numbers, user callbacks and the
network appear as parameters that may take any value.

| file | what it models |
|---|---|
| `scheduler.dfy`, `scheduler_invariant.dfy`, `scheduler_theorems.dfy`, `scheduler_histories.dfy` | worker threads, message routing and all mutexes of `src/manager.cpp`; what becomes of requests and messages over whole runs |
| `request.dfy` | the state machine of one request |
| `roundrobin.dfy`, `transmit.dfy`, `transmit_theorems.dfy`, `transmit_closing.dfy`, `transceiver.dfy` | the send queues: round robin, byte accounting, order on every connection, what a failure or a kill takes along and closes; `transmit()` and `send()` in place |
| `block.dfy`, `framing.dfy`, `receiver.dfy` | the receive buffer and incremental framing |
| `streambuf.dfy` | escaping into the bounded put area, and cutting output into records |
| `params.dfy`, `urldecode.dfy`, `multipart.dfy` | name-value pairs, URL-encoded and multipart forms |
| `address.dfy`, `address_refusals.dfy`, `base64.dfy`, `sqlarray.dfy`, `bigendian.dfy` | IPv6 text, Base64, PostgreSQL arrays, byte order |
| `mailer.dfy`, `mailer_dialogue.dfy`, `mailer_progress.dfy`, `sessions.dfy` | the SMTP client and the session cache |
| `common.dfy` | what several of them need: options, and facts about sequences |

Things the proofs brought to light, each stated exactly:

* A worker gives up `Request::mutex` before the queue lock (src/manager.cpp:306-307).
  In between, the sweep for a dead socket (src/manager.cpp:351-369) may erase the
  request, so that the second unlock touches a freed object. So "no request is erased
  while a worker is inside it" holds for workers that own the request, and for the
  sweep exactly when the queue lock is free (`SweepErasesUnderHolder`); a schedule that
  reaches the bad state is given (`UnlockAfterErase`).
* The send queues are keyed by descriptor (src/transceiver.cpp:495), and a descriptor is
  handed out again once it is closed (src/sockets.cpp:1443-1451). A record that fails or
  kills takes along everything queued under its descriptor (src/transceiver.cpp:150-180),
  records of another connection included. So what is passed to send for a connection is
  what was written, in flight and queued exactly as long as no write of its own failed
  and no record queued under its descriptor failed or killed while it had bytes there
  (`StreamIsWhole`); a schedule in which a healthy connection loses a record in the
  middle of its stream is given (`BystanderLoses`).
* `receive` drops what is buffered when a read fails (src/transceiver.cpp:432-440); this
  can be a complete record, exactly when it is a bare header (`Receiver.Receive`), such as
  the eight bytes that end a stream (`BareHeaderLost`).
* The destination size documented for `base64Decode` is enough for every text but whole
  groups followed by a lone pad (`DocumentedRoom`).
* After one to five groups without "::", a dotted address leaves the rest of the sixteen
  bytes as they were (src/address.cpp:100-166): what a text is read as depends on the old
  bytes if and only if it is such a text (`OldBytesKept`), for example 1:1.2.3.4
  (`OldBytesSeen`).
* A dotted address alone, or after "::" alone, is read as an IPv4-mapped one: the text
  ::1.2.3.4 becomes ::ffff:1.2.3.4 (src/address.cpp:100-123; `DottedTailRead`,
  `BareDottedRead`), so the text of an IPv4-compatible address is not read as itself.
* `Results_base::field` leaves the vector as it was when the array has no dimension,
  which is how PostgreSQL sends an empty one (`EmptyArrayKeeps`).

## Model

| member | source | states |
|---|---|---|
| SchedulerTheorems.NoLostMessage | src/manager.cpp:269-315 | in every reachable state, a request with a waiting message has a task queued, carried or about to be filed for it, or an owner that will look at the queue again or erase it; so dropping a task when the try-lock fails is safe |
| SchedulerTheorems.NothingLeftAtRest | src/manager.cpp:258-334 | when all threads rest and no task is queued, every message pushed to a live request was handled |
| SchedulerTheorems.ManagementMessagePresent | src/manager.cpp:147-155 | whoever runs localHandler finds a management message |
| SchedulerTheorems.OneOwner | src/manager.cpp:279-309 | at most one thread is past the try-lock of a request, and that request is live |
| SchedulerTheorems.ConsumedInOrder | include/fastcgi++/request.hpp:67-79 | what a request consumed followed by its queue is what was pushed to it, in order, erased requests included |
| SchedulerTheorems.EndRequestAtMostOnce | src/manager.cpp:290-303 | END_REQUEST is sent at most once, as the last record, for every request there ever was; a live request that sent it is owned by the worker about to erase it |
| SchedulerTheorems.WorkerErasesAlone | src/manager.cpp:291-303 | a worker that erases a request is the only thread using it |
| SchedulerTheorems.SweepSparesOwners | src/manager.cpp:351-369 | the sweep for a dead socket never takes a request that a worker owns; what it does take is stated by SchedulerHistories.SweepTakesItsOwn |
| SchedulerTheorems.SweepErasesUnderHolder | src/manager.cpp:304-308 | when the sweep erases a request, another thread is inside it if and only if its queue lock is taken, and that thread is between the two unlocks |
| SchedulerTheorems.UnlockAfterErase | src/manager.cpp:304-308 | a reachable state in which a worker still has to unlock the queue lock of an erased request |
| SchedulerTheorems.NoDeadlock | src/manager.cpp:258-424 | in every reachable state, if a thread is under way then some thread under way can step |
| SchedulerInvariant.StepKeepsInv | src/manager.cpp:258-424 | every step of every thread keeps all invariants: lock holders, owners, queue locks, history, coverage, management count |
| SchedulerInvariant.ReachableHasInv | src/manager.cpp:258-424 | the invariants hold after every schedule |
| SchedulerInvariant.CoversKept | src/manager.cpp:372-424 | no step leaves a waiting message without somebody bound to look at it |
| SchedulerInvariant.HandOverKept | src/manager.cpp:304-308 | while a worker holds a queue lock after giving up Request::mutex, the next owner has not looked at the queue |
| SchedulerInvariant.LocalKept | src/manager.cpp:338-345 | one management message waits for every management task, queued or in hand |
| SchedulerHistories.SweepTakesItsOwn | src/manager.cpp:346-371 | in every run: all a sweep still has to look at are requests of the socket push() was last called for; a step of it erases at most the one it looks at, exactly if nobody owns it; every request of another socket stays as it was |
| SchedulerHistories.SweepLooksAtAll | src/manager.cpp:352-369 | no request of the socket is skipped: one that is there is still to be looked at or was found owned in this sweep |
| SchedulerHistories.ErasedForCause | src/manager.cpp:288-309 | a request goes only with END_REQUEST sent, or its socket found dead by its owner, or without an owner in a sweep push() was called for; never two in one step |
| SchedulerHistories.VerdictsHeeded | src/manager.cpp:290-308 | a worker gives a request back if it found the socket valid and erases it if it found it dead, not the other way round |
| SchedulerHistories.CreatedByBegin | src/manager.cpp:378-417 | a request comes to be if and only if a thread in push() was called with a BEGIN_REQUEST record for it, in the role its body names, with nothing queued |
| SchedulerHistories.CallsServed | src/manager.cpp:336-424 | wherever a thread in push() is, it is at work on the target and the message of its last call |
| SchedulerHistories.PushedAsCalled | src/manager.cpp:418-419 | what is added to a request's queue is the message the thread was last called with, for this request |
| SchedulerHistories.StepHappens | src/manager.cpp:258-424 | what one step of any thread does to one request: nothing, one message pushed, the first one taken by its owner, or the one in hand handled |
| SchedulerHistories.RequestsLive | src/manager.cpp:290-309 | in every run, each live or erased request is what handling the messages it consumed, in order, made of it |
| SchedulerHistories.PostBufferIsPosted | src/manager.cpp:290-309 | so between messages the post buffer of a live request in INPUT is the contents of all INPUT records it consumed, in order |
| SchedulerHistories.WorkersExitWhenTold | src/manager.cpp:266-318 | a worker is gone if and only if terminate() was called, or stop() was and no request was left, when it looked last |
| RequestMachine.LifeOfRequest | src/request.cpp:113-215 | over any messages and any user code, END_REQUEST is sent at most once, last, and exactly if a message ended the request; from INPUT on post buffer <= content length <= maximum |
| RequestMachine.LifeMovesForward | src/request.cpp:113-215 | the state only moves PARAMS, INPUT, OUTPUT; sent records stay sent; nothing changes after the end |
| RequestMachine.LifeRemembers | src/http.cpp:432-439 | as long as a request is open, its state, content length and post buffer follow from the messages alone: in INPUT the post buffer is the contents of all INPUT records, one after the other |
| RequestMachine.LifeEnds | src/request.cpp:125-213 | a request has ended if and only if one of its messages is ABORT_REQUEST, a record of the wrong kind, for an unknown role, too big, of an unknown type, or one at which user code was done |
| RequestMachine.LifeAnswers | src/request.cpp:125-213 | what goes out for a message: on an end the page or the output of its reason, then END_REQUEST with the status of the reason; else what user code wrote |
| RequestMachine.HandleKeeps | src/request.cpp:125-213 | one message: the handler gives up the lock exactly when it sends END_REQUEST, and the state moves at most one step |
| RequestMachine.Request.Handler | src/request.cpp:113-215 | the loop, with pushes arriving meanwhile, consumes a prefix of old queue plus arrivals and leaves the state of that run; it returns the lock only on an empty queue |
| RequestMachine.Request.HandleMessage | src/request.cpp:125-213 | one turn of the loop is the specified transition |
| RequestMachine.Request.InputRecord | src/request.cpp:82-111 | inputRecordProcess is the specified transition for INPUT records; LifeRemembers says what it makes of the post buffer |
| RequestMachine.Request.Complete | src/request.cpp:32-80 | complete() sends what user code wrote, then END_REQUEST |
| RequestMachine.Request.Push | include/fastcgi++/request.hpp:68-72 | push appends to the queue and changes nothing else |
| TransmitTheorems.SizeIsAccounted | src/transceiver.cpp:121-181 | with any number of senders, through failures and kills, m_sendBufferSize is queued plus in-flight bytes less what senders have not added yet; at quiescence it is the queued bytes |
| TransmitTheorems.RecordsInOrder | src/transceiver.cpp:121-181 | on every connection, whatever fails: the records passed to send are those done with, the one in flight and those queued, in order, and the wire holds what was written of them, in order |
| TransmitTheorems.StreamIsWhole | src/transceiver.cpp:150-180 | the bytes passed to send for a connection are those written, in flight and queued if and only if no write of its own failed and no record queued under its descriptor failed or killed while it had bytes there |
| TransmitTheorems.WireIsPrefix | src/transceiver.cpp:132-149 | until then the bytes written to a connection are a prefix of what was passed to send for it, and all of it once nothing is queued or in flight |
| TransmitTheorems.BystanderLoses | src/transceiver.cpp:150-161 | a reachable state in which an open connection without a failed write or a kill record lacks a record in the middle of its stream, a write for an earlier connection with its descriptor having failed |
| TransmitTheorems.KillAfterAll | src/transceiver.cpp:166-180 | when a kill record has gone out, what is dropped of its connection is exactly what was passed to send after it; everything up to it was done with, and written if nothing hit the connection |
| TransmitTheorems.PicksGoRound | src/transceiver.cpp:193-227 | in every run, while a socket stays queued no other is picked twice before it |
| TransmitTheorems.StepKeepsInv | src/transceiver.cpp:85-298 | every step of senders, receiver and transmitter keeps queues, accounting, order, what losses mean and choice |
| TransmitTheorems.StepAccounted | src/transceiver.cpp:476-509 | every step keeps the byte accounting |
| TransmitTheorems.StepOrdered | src/transceiver.cpp:476-509 | every step keeps, per connection, the order of its records and that they were written whole exactly if nothing hit it |
| TransmitClosing.FailureCloses | src/transceiver.cpp:150-180 | in every reachable state, a connection a write has failed for or a kill record of which went out is closed, once the aftermath is over |
| TransmitClosing.NothingAfterTheEnd | src/transceiver.cpp:132-180 | from then on no schedule adds a byte to its wire |
| TransmitClosing.ClosedForCause | src/transceiver.cpp:150-180 | a connection is closed if and only if the receiving side closed it or a record of it failed or killed |
| TransmitClosing.LockWhenFull | src/transceiver.cpp:182-191 | the branch under the lock is entered only when the size has reached the limit, and left only when nothing is queued |
| Transmitting.Transceiver.Transmit | src/transceiver.cpp:85-298 | the loops in place, with a finite list of what other threads do at every point (under the lock: add to the size, change the limit, close) and of what writes return: a run of the step system that ends with nothing queued, m_sendBufferSize being what senders have to add yet with the sign turned, and everything written to a connection if and only if nothing hit it |
| Transmitting.Transceiver.TakeRecord | src/transceiver.cpp:97-130 | takes the first record of the socket chosen, one record less being queued |
| Transmitting.Transceiver.Next | src/transceiver.cpp:98-121 | lower_bound, increment and wrap give the specified choice |
| Transmitting.Transceiver.WriteRecord | src/transceiver.cpp:132-149 | the write loop is a run of write steps, for any finite list of results of write, other threads acting between two writes, and ends |
| Transmitting.Transceiver.Finish | src/transceiver.cpp:150-180 | on a failure or a kill the socket is closed, everything queued under the descriptor goes and its bytes are taken off: the step of the step system, of which TransmitClosing.FailureCloses says what it is for |
| Transmitting.Transceiver.Drain | src/transceiver.cpp:184-283 | the branch under the lock empties everything, while senders that pushed before may add to the size at any point of it |
| Transmitting.Transceiver.Push | src/transceiver.cpp:492-500 | send() appends to the socket's list |
| Transmitting.Transceiver.Add | src/transceiver.cpp:501 | and adds to the size later |
| RoundRobin.Fair | src/transceiver.cpp:97-121 | choices go once round before any repeats, however other queues come and go |
| RoundRobin.ChooseIsSuccessor | src/transceiver.cpp:97-121 | begin(), lower_bound, increment and wrap choose the next handle going round, from the start if there was none |
| RoundRobin.NextIsNearer | src/transceiver.cpp:97-121 | a choice that is not s lies between the last one and s, going round |
| Blocks.Block.Reserve | src/block.cpp:32-48 | the allocation grows and the contents stay |
| Blocks.Block.SetSize | src/block.cpp:90-98 | the size changes, the bytes before it stay |
| Blocks.Block.Assign | src/block.cpp:107-116 | the contents become the bytes given |
| Blocks.Block.MoveFrom | src/block.cpp:80-88 | contents move, the source is left empty |
| Blocks.Block.Clear | src/block.cpp:100-105 | nothing is left |
| Framing.FramesUnique | src/transceiver.cpp:404-454 | a stream has exactly one division into records and a rest without a complete record |
| Framing.FramesWhole | src/transceiver.cpp:404-454 | the records and the rest are the stream, and every record is one |
| Framing.FramesExtend | src/transceiver.cpp:404-454 | framing may go on from the incomplete rest: chunking does not matter |
| Framing.FramesOfPrefix | src/transceiver.cpp:404-454 | a prefix of a stream of whole records frames into the first of them, the whole stream into all |
| Framing.RecordSize | src/protocol.cpp:93-102 | a multiple of 8 that holds header and content, clipped at 0xffff, with less than 8 bytes of padding |
| Receiving.Receiver.Receive | src/transceiver.cpp:390-459 | for any read sizes: a valid socket is asked for at least one byte, the stream is the delivered records and the buffer, the buffer never holds a complete record on return, size <= reserve; on a failed read exactly what is lost |
| Receiving.Receiver.Exact | src/transceiver.cpp:390-459 | the delivered records are exactly the complete records of the bytes received |
| Receiving.Receiver.EndToEnd | src/transceiver.cpp:390-459 | when what arrives is the beginning of a stream of records, the records delivered are the first of them; when it is the whole stream, all of them and nothing is left |
| Receiving.Receiver.ReceiveHeader | src/transceiver.cpp:405-420 | the first read only appends to the buffer, at most up to a header |
| Receiving.Receiver.ReceiveBody | src/transceiver.cpp:422-441 | the second read only appends, with room for exactly the record announced |
| Receiving.Receiver.Deliver | src/transceiver.cpp:442-454 | the whole record is delivered, for the request its header names, and the buffer left empty |
| Receiving.Receiver.CleanupSocket | src/transceiver.cpp:461-474 | the entry goes and the manager is told |
| Receiving.LostRecord | src/transceiver.cpp:432-440 | what a failed read drops is the incomplete rest, or one more record |
| Receiving.BareHeaderLost | src/transceiver.cpp:432-440 | at the eight bytes of a record without content the framing has one record more than was delivered |
| Streaming.FcgiStreambuf.BuildRecord | src/fcgistreambuf.cpp:140-158 | one well-formed record around the first min(n, 0xffff) bytes |
| Streaming.FcgiStreambuf.FillRecord | src/fcgistreambuf.cpp:103-120 | version, type, id, lengths and content are where section 3.3 of the FastCGI Specification wants them |
| Streaming.FcgiStreambuf.SendAll | src/fcgistreambuf.cpp:138-161 | the contents of the records sent are the data, in order, each record well formed; the loop ends |
| Streaming.FcgiStreambuf.EmptyBuffer | src/fcgistreambuf.cpp:91-128 | the put area is sent and emptied, the output unchanged |
| Streaming.FcgiStreambuf.Dump | src/fcgistreambuf.cpp:131-162 | raw bytes follow everything written before |
| Streaming.FcgiStreambuf.Xsputn | src/webstreambuf.cpp:144-201 | exactly the escapes of the input are added to the output, whatever the put area held; every record sent meanwhile ends between two escapes; it ends |
| Streaming.FcgiStreambuf.PutEscapes | src/webstreambuf.cpp:169-191 | escapes go in whole while they fit |
| Streaming.RecordsReassemble | src/fcgistreambuf.cpp:91-162 | the records sent, as one stream, are framed back into the same records |
| Streaming.PrefixOfRecords | src/transceiver.cpp:390-459 | any part of the stream frames into the records it holds whole |
| Streaming.WriteAndReassemble | src/fcgistreambuf.cpp:91-162 | writing, escaping, cutting and framing back gives the escaped text followed by the raw bytes |
| Escaping.EscapeAppend | src/webstreambuf.cpp:144-201 | escaping is character by character, so where it is cut does not matter |
| Escaping.HtmlRoundTrip | src/webstreambuf.cpp:60-72 | a reader of the five entities of XML sees what was written, and what is written holds no < > or quote |
| Escaping.UrlTable | src/webstreambuf.cpp:82-111 | the characters escaped in URLs are these twenty-three and no others |
| Escaping.PercentText | src/webstreambuf.cpp:82-111 | each as a percent sign and two upper-case digits |
| UrlDecoding.PercentEscapedToRealBytes | src/http.cpp:115-163 | the loop over two hexadecimal digits writes the decoded bytes, never more than it read |
| UrlDecoding.DecodeEscape | src/webstreambuf.cpp:86-111 | decoding undoes URL escaping, for every byte string |
| UrlDecoding.AnySpellingDecoded | src/http.cpp:115-163 | however each byte is spelled, as itself, as a plus sign for a space or with digits in either case, decoding gives the bytes |
| UrlDecoding.OtherDigitRead | src/http.cpp:140-157 | any other character in an escape counts as zero |
| UrlDecoding.AnyFieldRead | src/http.cpp:724-755 | in any text a name goes up to the first equals sign, separators included, and its value up to the next separator |
| UrlDecoding.NoFieldWithoutEquals | src/http.cpp:724-755 | what has no equals sign is no field |
| UrlDecoding.DecodeUrlEncoded | src/http.cpp:704-757 | the scanner inserts the listed pairs in order |
| UrlDecoding.OneField | src/http.cpp:724-755 | one escaped field is read back, up to the separator |
| UrlDecoding.UrlEncodedRoundTrip | src/http.cpp:704-757 | any names and values, escaped and joined by "&", "; " or any text that begins with an escaped character, come back exactly and in order |
| NameValue.ProcessParamHeader | src/protocol.cpp:32-80 | reads the first pair if it is there as a whole, and no byte outside the data |
| NameValue.ReadLengthAt | src/protocol.cpp:42-55 | one length of one or four bytes |
| NameValue.Fill | src/http.cpp:173-179 | the loop yields all whole pairs, in order, and ends |
| NameValue.PairsOfPrefix | src/protocol.cpp:32-80 | wherever the encoding of any list is cut, exactly the pairs wholly before the cut are read |
| NameValue.PairsOfEncoding | src/protocol.cpp:32-80 | the whole encoding, lengths of both kinds mixed, is read back exactly |
| Multipart.MultipartRoundTrip | src/http.cpp:475-649 | any list of parts laid out per section 4 of RFC 7578 is read back exactly and in order |
| Multipart.FormRead | src/http.cpp:475-649 | of such a text the values are the parts without a content type, each with its name and body, and the files the others, each with its name, content type, filename or nothing, and body |
| Multipart.FirstFieldCounts | src/http.cpp:512-580 | in any text the first of each field of a part counts |
| Multipart.NamelessDropped | src/http.cpp:598-632 | in any text without a name nothing is inserted |
| Multipart.TypeEndsAtBreak | src/http.cpp:571-579 | a content type goes up to the first carriage return or line feed |
| Multipart.BodyEnds | src/http.cpp:589-597 | a body loses two characters before its boundary and one line break before these; when there is less, all |
| Multipart.ReadPart | src/http.cpp:503-648 | one part is read and the scanner is ready for the next |
| Multipart.ReadBody | src/http.cpp:581-646 | the body ends where its boundary first occurs, without the line break before it |
| Multipart.Environment.ParsePostsMultipart | src/http.cpp:475-649 | for every buffer, posts and files grow by the entries the scan defines, in order; when the buffer is a form laid out per RFC 7578, by its parts field by field |
| Multipart.Environment.Insert | src/http.cpp:598-632 | a part with a content type is a file, one without a value, one without a name is dropped |
| AddressText.AddressRoundTrip | src/address.cpp:53-176 | for all addresses, and whichever zero run is shortened, the printed text is read back as the same 16 bytes |
| AddressText.AnySpellingRead | src/address.cpp:64-99 | any eight groups of one to four digits in either case, with leading zeros or without, any run of zero groups as "::", are read as these groups |
| AddressText.CaseDoesNotMatter | src/address.cpp:91-98 | two texts equal but for the case of their letters are read alike, whatever they are |
| AddressText.DottedTailRead | src/address.cpp:100-149 | six groups and a dotted address are read as they stand, but after "::" alone as the IPv4-mapped address |
| AddressText.BareDottedRead | src/address.cpp:100-149 | so is a dotted address alone |
| AddressText.AtoiReads | src/http.cpp:59-75 | a decimal number is read back, with a minus sign as its negative |
| AddressText.FirstOctetReads | src/address.cpp:125-133 | of the digits before the first point the last three count, as decimal ones |
| AddressRefusals.StrangeRefused | src/address.cpp:132-157 | a strange character, or a dotted address cut short, before eight groups are complete: all zeros |
| AddressRefusals.TwoGapsRefused | src/address.cpp:66-78 | empty groups in two places: all zeros |
| AddressRefusals.TooFewRefused | src/address.cpp:79-90 | fewer than eight groups without an empty one: all zeros |
| AddressText.ReadGroups | src/address.cpp:64-157 | from any group on, reading the rest of the text completes the address |
| AddressText.ReadDotted | src/address.cpp:100-149 | ::ffff:a.b.c.d is read back |
| AddressText.Address.Assign | src/address.cpp:53-176 | the in-place reader computes the specified bytes, for every text |
| AddressText.OldBytesKept | src/address.cpp:100-176 | what a text is read as depends on the bytes there were before if and only if the text is one to five groups without "::" and then a dotted address |
| AddressText.OldBytesSeen | src/address.cpp:100-176 | 1:1.2.3.4 keeps ten of them |
| AddressText.Address.Scan | src/address.cpp:64-157 | its loop, which never writes past the sixteen bytes |
| AddressText.Address.ReadOctets | src/address.cpp:135-147 | the octets after the first |
| AddressText.Address.PutInZeros | src/address.cpp:165-175 | the overlapping move and the fill put the zeros in at the pad |
| AddressText.Address.FindRun | src/address.cpp:203-246 | the run found is, of the longest zero runs, the last |
| AddressText.Address.Print | src/address.cpp:185-320 | the text printed is shorter than its buffer and is read back as the same address over any previous bytes |
| AddressText.RunUnique | src/address.cpp:203-246 | there is only one such run, so the text is unique |
| AddressText.PrintedFits | src/address.cpp:199-200 | no text needs more than the 40 characters of the buffer |
| AddressText.Parse | src/address.cpp:64-157 | never more than 16 bytes are written and the pad lies among them |
| Mail.MailConserved | src/mailer.cpp:33-322 | against any server and network: acknowledged emails, the current one and the queue are the emails enqueued, in order |
| Mail.MailDelivered | src/mailer.cpp:272-296 | an email leaves only on a 250 to its final dot, its whole transaction having been written and accepted on that connection |
| Mail.BodyOnlyWhenAsked | src/mailer.cpp:232-270 | body bytes follow a 354 for that email on the same connection |
| Mail.StopsWhenDone | src/mailer.cpp:36-46 | without terminate the handler stops only when every email was acknowledged |
| MailProgress.CooperativeServer | src/mailer.cpp:33-322 | a server that accepts everything, with any list of extensions, gets the email in hand text by text; it is then delivered, and QUIT said |
| MailProgress.OtherAnswersEnd | src/mailer.cpp:87-315 | any other answer: the connection is closed, nothing is written, and the email stays |
| MailProgress.PiecesJoin | src/mailer.cpp:74-84 | a line that arrives in pieces is as good as one that arrives at once |
| MailProgress.LineEnding | src/mailer.cpp:84-85 | one carriage return before the line feed does not count |
| MailProgress.ErrorsAreWaitedOut | src/mailer.cpp:38-72 | an error is waited out and the email tried again on a new connection |
| MailProgress.Farewell | src/mailer.cpp:298-309 | after QUIT the connection is closed, as an error unless the server answers 221 |
| MailProgress.StopsExactly | src/mailer.cpp:36-46 | the handler stops if and only if terminate() was called, or stop() was and every email was acknowledged |
| MailProgress.CallsHeeded | src/mailer.cpp:324-375 | terminate() ends it at once, stop() when nothing is left, start() begins again after either |
| MailDialogue.NothingBeforeTheOpening | src/mailer.cpp:87-198 | on every connection EHLO is said only after a greeting, anything else only after the server took EHLO and offered 8BITMIME |
| MailDialogue.NothingAfterFailure | src/mailer.cpp:87-315 | after a write that failed nothing more is written on the connection |
| MailDialogue.IdleIsClosed | src/mailer.cpp:87-315 | disconnected or in error the socket is closed; QUIT is the last thing said before the farewell |
| Mail.StepKeeps | src/mailer.cpp:33-382 | every step of handler and callers keeps all of this |
| Mail.SendBodyKeeps | src/mailer.cpp:236-262 | the body loop, with any write failing |
| Mailing.Mailer.Work | src/mailer.cpp:56-318 | one round of the loop without the mutex is the specified step |
| Mailing.Mailer.Process | src/mailer.cpp:87-315 | the answer to a line, by state |
| Mailing.Mailer.SendBody | src/mailer.cpp:236-262 | chunks until one write is short, then the dot |
| Mailing.Mailer.LoopTop | src/mailer.cpp:36-54 | exit, retry sleep or the next email |
| Mailing.Mailer.Queue | src/mailer.cpp:377-382 | the email goes to the end of the queue |
| SqlArrays.NumericRoundTrip | src/parameters.cpp:86-134 | a vector of integers of any byte width comes back as it was |
| SqlArrays.StringRoundTrip | src/parameters.cpp:142-178 | a vector of strings of any lengths comes back as it was |
| SqlArrays.NumericParameter.Assign | src/parameters.cpp:112-134 | the array built is header and elements |
| SqlArrays.NumericParameter.Get | include/fastcgi++/sql/parameters.hpp:241-246 | operator[] reads element i |
| SqlArrays.StringParameter.Assign | src/parameters.cpp:142-178 | the array built is header and strings, in exactly the room computed |
| SqlArrays.StringParameter.Get | src/parameters.cpp:180-193 | operator[] gives element i, all reads inside the data |
| SqlArrays.ReadNumericField | src/results.cpp:213-275 | the decoder, its checks and skipped elements included |
| SqlArrays.EmptyArrayKeeps | src/results.cpp:227-234 | an array without a dimension leaves the vector as it was |
| SqlArrays.HeaderDecides | src/results.cpp:227-258 | the vector is replaced if and only if the header says one dimension, no nulls and this element type |
| SqlArrays.OtherHeaderKeeps | src/results.cpp:227-253 | any other header leaves the vector as it was |
| SqlArrays.MarkedRead | src/results.cpp:258-275 | of any elements, those of the expected width are read, in order, the others skipped |
| SqlArrays.ReadStringField | src/results.cpp:317-367 | the decoder for strings |
| BigEndian.FromTo | include/fastcgi++/endian.hpp:77-99 | reading undoes writing |
| BigEndian.ToFrom | include/fastcgi++/endian.hpp:44-75 | writing undoes reading |
| BigEndian.HighestFirst | include/fastcgi++/endian.hpp:77-99 | the first byte counts most |
| BigEndian.SignedRoundTrip | include/fastcgi++/endian.hpp:141-187 | signed values survive the union casts |
| Base64.Base64RoundTrip | include/fastcgi++/http.hpp:604-679 | decoding undoes encoding, for every byte string |
| Base64.EncodedLength | include/fastcgi++/http.hpp:648-679 | four characters for every three bytes begun |
| Base64.DocumentedRoom | include/fastcgi++/http.hpp:400-418 | three quarters of the text's length is room enough if and only if the text is not whole groups and a lone pad |
| Base64.EncodedRoom | include/fastcgi++/http.hpp:400-418 | it is enough for everything encoded, in all padding cases |
| Base64.SessionIdRoundTrip | src/http.cpp:677-685 | a session id printed and read again is the same |
| Base64.TextRoundTrip | include/fastcgi++/http.hpp:604-645 | a text without a pad is decoded to the bytes it encodes if it is whole groups of known characters, and to nothing otherwise |
| Base64.KnownCharacters | src/http.cpp:759-765 | the decoder knows the sixty-four characters and no others |
| Base64.Base64Encode | include/fastcgi++/http.hpp:648-679 | the loop writes the encoding and nothing else |
| Base64.Base64Decode | include/fastcgi++/http.hpp:604-645 | the loop yields the decoding of every text, an error being no bytes, and writes no further than stated |
| Base64.Table | src/http.cpp:759-765 | the decoder inverts the encoder's table |
| SessionCache.SweepIsInvisible | include/fastcgi++/http.hpp:681-731 | under a clock that does not go back, any operations give the results of a map in which an entry is live if its last access is recent enough |
| SessionCache.StepAgrees | include/fastcgi++/http.hpp:681-731 | one operation keeps cache and map in agreement and gives the same result |
| SessionCache.StoredSessions | include/fastcgi++/http.hpp:698-731 | live sessions are stored |
| SessionCache.SweepsDoNotTell | include/fastcgi++/http.hpp:681-731 | two caches that agree with one map, swept at whatever times, give the same results to any operations |
| SessionCache.SizeShowsSweep | include/fastcgi++/http.hpp:568-573 | size() does tell: a sweep makes it smaller if and only if an expired entry was stored |
| SessionCache.NothingLingers | include/fastcgi++/http.hpp:698-731 | over any operations: after get() no session is stored that was not used for two keepAlive periods and the time between two looks at the clock |
| SessionCache.DueSweepClears | include/fastcgi++/http.hpp:702-718 | a sweep that is due leaves no expired session and sets the time of the next; one that is not takes none but the one asked for |
| SessionStore.Sessions.Get | include/fastcgi++/http.hpp:697-731 | lookup, sweep and lazy expiry are the specified step |
| SessionStore.Sessions.Cleanup | include/fastcgi++/http.hpp:704-716 | the sweep keeps exactly the entries that are not too old |
| SessionStore.Sessions.Generate | include/fastcgi++/http.hpp:681-695 | the identifier is the first drawn that is not stored, and the data are stored under it |
| SessionStore.Sessions.Erase | include/fastcgi++/http.hpp:588-592 | the entry is gone |

## Left out

- Liveness: wake-ups, condition variables and the retry interval are not timed; only safety and freedom from deadlock are proved.
- Signals, logging, process management, resizing of the thread pool, and the poll, epoll, listen and accept layers; reads and writes return any count.
- std::mutex::try_lock is taken not to fail without a holder.
- The GET_VALUES loop of localHandler and ManagementReply: the loop does not advance (src/manager.cpp:170-225) and the content length misses two bytes (include/fastcgi++/protocol.hpp:391).
- All wchar_t instantiations, UTF-8 conversion, locales, field widths, floating-point elements, dates and addresses in SQL.
- PARAMS pairs split over records: fill() is called per record (src/request.cpp:174), so the decoding law is for one record body; the content length it finds is an arbitrary choice in the request model.
- Escaped output through ChunkStreamBuf, whose emptyBuffer frees no space unless the chunk is full (src/chunkstreambuf.cpp:54-60).
- RFC 5952 canonical form: the printer shortens runs of one group and prefers the last longest run; only the round trip is claimed. A zero run of any place and length may be chosen in AddressRoundTrip.
- Transceiver: handles are the nonnegative integers accept() gives (src/sockets.cpp:1397), and m_sendBufferSize does not wrap.
- Transmitting.Transceiver: what other threads do at each point and what writes return come from finite lists, after which nobody sends and writes succeed, so that the loops end; the step system has no such bound. A connection's bytes are counted as written when write() took them.
- Transmitting.Transceiver.WriteRecord: it ends because the list of results of write does; a peer that takes no byte for ever would keep the source's loop going.
- The map m_receiveBuffers is modelled one socket at a time; that transmit() throws away the entries of sockets it closed (src/transceiver.cpp:286-293) is not.
- decodeUrlEncoded with an empty separator, which no caller passes.
- The multimaps of posts and files are lists in the order of insertion.
- Integer overflow in atoi, which would not change the byte it is cut down to.
- Callbacks from user code that push to their own request appear as pushes from other threads.
- SMTP dot-stuffing, and random number generation for session identifiers; an identifier drawn that is not stored is given.
- The mailer's join() is no step of its own: start() once the handler has ended stands for both.
- A line of the mailer may be taken for complete when the read failed before its first byte, since the character tested is then not initialised (src/mailer.cpp:74-84); the model allows both outcomes.
- Parameter sizes are taken to fit the 32-bit lengths libpq uses.
- The expiration string of the session cache.
