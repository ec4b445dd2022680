# A model of a CoAP endpoint, with proofs

The repository is a CoAP endpoint: RFC 7252 messages over UDP or DTLS, and RFC 7959 block-wise
transfer. This project models its logic in Dafny and proves what it is for: that messages
survive the wire, that a block-wise upload reaches the application at most once and then
complete, that replies find their requests, that duplicates are answered but not handled
again, that sends to one address are limited, that retransmission stops, and that the route
trie is a table with a greedy matching rule.

## How it is built

Each component has a pure state and pure step functions, and the source's imperative code is
written as Dafny methods that are proved equal to them. Theorems about runs are stated on the
pure side and so hold of the methods.

| module | models |
|---|---|
| `Basics`, `Options`, `StableSort`, `Messages` | machine integers, typed option values and their table, `sort.Stable` on options, the option list (message_options.go, message.go) |
| `Codec`, `MessageObject` | printer and parser as functions, and the `Message` class whose methods loop over buffers and update fields (message_parse.go, message.go) |
| `Wire` | the bytes in the standards' own numbers: header, options, table, block option, which packets are accepted (message_parse.go, message_options.go, blockwise.go) |
| `Paths` | paths to and from Uri-Path options (message.go) |
| `Blocks`, `BlockCache` | Block1 and Block2 values, the server's block cache (blockwise.go) |
| `Dedup`, `Pending` | message deduplication, request/reply correlation, Message IDs (dedup.go, handle_ack.go, send.go) |
| `Handler`, `HandlerFrame`, `Invocation`, `ServerRuns`, `ServerObject` | `handleMessage`, cut where the route callback runs; what it may touch; when it calls the callback; what repeated messages get over whole runs; and the `Server` class (handler.go, handler_confirmable.go, handler_notify.go) |
| `Responses` | what a new message gets: the callback's answer whole or in blocks, the server's own answers |
| `ClientSend`, `Requests`, `Retransmit` | `Send` with its two block loops, what it puts on the network, and the retransmission loop of `send` (send.go) |
| `Transfers`, `Uploads`, `Completion` | clients, network and server as one step system: safety over every run, and exactly when some run completes |
| `Exchange`, `Overlong` | uploads of any block size with nothing in their way: exactly when they are whole; Message IDs and block numbers that come round (send.go, handler.go, blockwise.go) |
| `Nstart` | the per-address semaphore at lock granularity (nstart.go) |
| `Routes`, `OneRoute` | the route trie in the heap, the flat table it stands for, and what a route of literals and variables matches (route.go) |

In `Uploads` packets and replies stay in flight for ever and may be delivered at any time and
any number of times, so loss, duplication and reordering need no steps of their own. Clients
take any reply under their token, however old. Other traffic is any byte string from any
address that parses, as long as it does not carry the key or token of an upload. Anybody may
use any Message ID, also one that is still in use. Callbacks return at any later time, with any
answer under the request's token. Blocks may expire at any time; the dedup entries of the
uploading addresses may not.

Where the code does less than its callers or the standard may expect, that is stated exactly
rather than smoothed over: a Block2 continuation whose cached response has expired is handed
to the callback as a new request (`Invocation.ContinuationFallsThrough`); a growing or uneven
Block1 size leaves a gap (`ClientSend.NextChunkIsAdjacent`); a request is sent again after its
acknowledgement if and only if a later turn but the last brings nothing, and an
acknowledgement in the last turn ends the wait at once
(`Retransmit.AcknowledgedRequestIsResent`, `Retransmit.TimeoutIsFullUnlessAcknowledged`);
no wakeup is ever lost if and only if every address has at most one positive limit
(`Nstart.OneLimitIsExactlyEnough`), and the limits are kept if and only if no address has both
a positive limit and sends without one (`Nstart.BoundHoldsExactly`); a download is whole if and
only if its size can be written and it has at most 2^20 blocks (`ClientSend.DownloadIsExact`); an
upload is whole only for certain block sizes and lengths (`Exchange.WholeExactly`); a chunk sent
under a Message ID that is still recorded takes its client back (`Overlong.UsedIdGoesBack`), so
that until the server forgets them an upload completes if and only if it has no more chunks than
there are Message IDs (`Completion.CompletesExactly`); and parsed options are sorted as long as
no option number falls below the one before it (`Codec.ParsedIsSortedIfRising`).

## Model

| member | source | states |
|---|---|---|
| Options.IntRoundTrip | message_options.go:110-135 | Decoding the encoding of any 32-bit value gives the value back. |
| Options.EncodeIntIsShortest | message_options.go:110-135 | Of all byte strings of one to four bytes with a given value, `encodeInt` picks a shortest one, and that very string if it has no leading zero. |
| Options.EncodedLengthShrinks | message_options.go:110-135 | Re-encoding a parsed integer never takes more bytes than it had, or one byte if it had none. |
| Options.ParsedIsLegal | message_options.go:165-190 | Whatever `parseOptionValue` returns has the type its option calls for, a legal length, and is already canonical. |
| Options.DeliveredIffLegal | message_options.go:137-190 | An option written and parsed again comes back in canonical form if and only if it is in the table, well typed and of legal length. |
| StableSort.SortIsStable | message_parse.go:219 | The sorted list is ordered by number and keeps, for every number, the options of that number in their order. |
| StableSort.StableSortIsUnique | message_parse.go:219 | Any two ordered lists with the same options in the same order per number are equal, so the result does not depend on the sorting algorithm. |
| StableSort.SwapKeepsOrder | message_options.go:198-207 | Swapping neighbours of different number changes no per-number order. |
| StableSort.SortInPlace | message_options.go:194-207 | Sorting an array with the source's `Less`, whose tie-break compares positions, gives exactly the stable sort. |
| Messages.WithReplaces | message.go:156-175 | Setting an option with `replace` leaves that one value under its number and every other number untouched; removing leaves none. |
| Messages.MinusMembers | message_options.go:209-217 | `Minus` keeps exactly the options of other numbers. |
| Codec.ParseOne | message_parse.go:293-324 | Parsing one option consumes at least one byte. |
| Codec.ExtensionRoundTrip | message_parse.go:184-217 | `parseExtOpt` undoes `extendOpt` for every number up to 65804, whatever follows. |
| Codec.OneRoundTrip | message_parse.go:198-228 | The parser takes off exactly the option number and raw value that were written, and never mistakes them for the payload marker. |
| Codec.OptionsRoundTrip | message_parse.go:221-234 | Parsing a printed option list and payload gives what each option delivers, in order, and the payload. |
| Codec.HeaderRoundTrip | message_parse.go:130-154 | Version, type, token length, code, Message ID and token are read back from a printed header, whatever follows. |
| Codec.DeliveryTheorem | message_parse.go:130-237 | Any message with a 2-bit type, a token of at most 8 bytes and values short enough to encode is accepted, with its options stably sorted and each replaced by what it delivers, if anything. |
| Codec.RoundTrip | message_parse.go:240-332 | A message arrives as its normal form (options stably sorted, integers canonical, all else the same) if and only if it is well formed. |
| Codec.ParsedIsWellFormed | message_parse.go:246-332 | Every accepted packet gives a 2-bit type, a token of at most 8 bytes, and known options of legal length in canonical form. |
| Codec.EncodeOfNormal | message_parse.go:219-228 | The bytes depend on the options only up to stable sorting and canonical form. |
| Codec.NormalForm | message_parse.go:246-332 | Printing what was parsed from any accepted packet and parsing it again gives the same message with sorted options, and a further round changes nothing. |
| Codec.WrappedNumberIsUnsorted | message_parse.go:321-324 | Some accepted packet, whose second option number wraps modulo 256, has unsorted options. |
| Codec.ParsedIsSortedIfRising | message_parse.go:293-329 | The options of an accepted packet are sorted if no number falls back on the way through it, and, when every option on the way is kept, only if. |
| Codec.RequestFromTheStandard | message_parse.go:130-237 | The first example request of RFC 7252, appendix A, is printed byte for byte as the standard shows it. |
| Codec.WireKeepsOptions | message_parse.go:219-228 | String and opaque options of a well-formed message arrive unchanged and in order. |
| Wire.IntegersAreBigEndian | message_options.go:110-135 | Integers are written and read with the most significant byte first. |
| Wire.IntegersWrap | message_options.go:137-163 | An integer of any Go type is written as its value modulo 2^32. |
| Wire.StringsArrive | message_options.go:83-103 | Which string options arrive as they are, by option number and length. |
| Wire.BlobsArrive | message_options.go:83-103 | The same for byte strings. |
| Wire.IntegersArrive | message_options.go:83-103 | The same for integers by their size; media types are read as such. |
| Wire.BlockOnTheWire | blockwise.go:76-120 | A block option holds number, More bit and size exponent in 20, one and three bits, in one byte up to number 7, two below 4096, else three. |
| Wire.HeaderOnTheWire | message_parse.go:149-155 | Version 1, type and token length share the first byte; code, Message ID and token follow. |
| Wire.OptionOnTheWire | message_parse.go:184-228 | An option is two nibbles, their extensions and the value, with the numbers 13, 14 and 269 of section 3.1 of RFC 7252. |
| Wire.PayloadOnTheWire | message_parse.go:230-234 | A payload follows a byte 0xff at the end of the packet; without a payload there is no such byte. |
| Wire.ResponseFromTheStandard | message_parse.go:130-237 | The response of the same example is printed byte for byte as the standard shows it. |
| Wire.OneIsRead | message_parse.go:275-324 | One option is read exactly if neither nibble is 15 and all its bytes are there, and then its number, value and rest are those the nibbles say. |
| Wire.AcceptedExactly | message_parse.go:246-332 | A packet is accepted if and only if it has version 1, a token of at most 8 bytes and options that are all there up to the end or to 0xff. |
| Paths.JoinSplit | message.go:221-233 | Joining the parts of a split string gives the string back. |
| Paths.StripSlashesStops | message.go:230-232 | What is left after dropping leading slashes starts with a slash only if there was nothing else. |
| Paths.PathReadsBack | message.go:221-241 | A path set locally reads back without its leading slashes. |
| Paths.PathSurvivesTheWire | message.go:221-241 | For every path, the receiver reads the same path, repeated segments included, if and only if no segment is longer than 255 bytes, even where an overlong one makes the packet read differently. |
| Paths.SegmentsAreOptions | message.go:226-241 | Setting a path with a slash in front of each segment leaves one option 11 for each, in order. |
| Paths.QueryIsJoined | message.go:198-202 | The query is read from options 15 with an ampersand between them. |
| Blocks.DecodeBlock | blockwise.go:33-70 | Exactly the values of one to three bytes decode, and then to a legal size and a number below 2^20. |
| Blocks.BlockRoundTrip | blockwise.go:33-120 | A block is read back unchanged if and only if its number is below 2^20 and its size legal; otherwise the number is cut to 20 bits and the size becomes 16. |
| Blocks.ReencodeKeepsMeaning | blockwise.go:33-120 | Re-encoding any decoded value keeps its meaning even if its length changes. |
| Blocks.WithBlockReads | message.go:253-269 | Setting or removing a block option is read back, and no other option moves. |
| Blocks.WireKeepsBlocks | message.go:51-65 | The receiver of a well-formed message reads the blocks its sender set. |
| Blocks.EncodeInPlace | blockwise.go:76-120 | Filling the byte buffer step by step gives the block's encoding. |
| MessageObject.NeedsBlocksMeansTooLong | message.go:71-84 | For a local message and a configured maximum, block-wise transfer is used if and only if the encoded packet is longer, in whatever order the options are. |
| MessageObject.BlocksUnlessItFits | message.go:71-84 | Block-wise transfer is used if and only if the message does not fit: its payload the block size when no maximum is configured, its packet the maximum otherwise. |
| MessageObject.ParseIntoZero | message_parse.go:240-243 | Parsing into a zero message succeeds with the parser's result and fails with its error. |
| MessageObject.Message.MarshalBinary | message_parse.go:130-237 | Returns the message's encoding and leaves its options sorted. |
| MessageObject.Message.HeaderSize | message_parse.go:22-127 | The header size is the length of the encoding without the payload bytes; the options end up sorted. |
| MessageObject.Message.PacketSize | message.go:95-101 | The recorded size if there is one, else exactly the length of the encoding. |
| MessageObject.Message.RequiresBlockwise | message.go:71-84 | True exactly when the encoding exceeds the configured maximum, for a local message. |
| MessageObject.Message.UnmarshalBinary | message_parse.go:246-332 | Leaves the fields the parser gives, on success and on each error, with new options behind the old ones. |
| MessageObject.Message.RemoveOption | message.go:173-175 | The options become those of other numbers, in order. |
| MessageObject.Message.WithOption | message.go:156-171 | Appends a single value, after dropping the old ones if asked to. |
| MessageObject.Message.WithStrings | message.go:156-167 | Appends one option for each string of a slice, after dropping the old ones if asked to, and then they read back in order. |
| MessageObject.Message.SetBlock1 | message.go:253-260 | Sets the Block1 option to the encoded block in place of the old ones, or removes it for a nil block. |
| MessageObject.Message.SetBlock2 | message.go:262-269 | The same for Block2. |
| MessageObject.Message.SetPathString | message.go:226-241 | Replaces the Uri-Path options by one for each segment. |
| BlockCache.ServingKeepsContents | blockwise.go:150-195 | Serving blocks in any order and any number of times changes no cached payload, option or progress. |
| BlockCache.ServedBlock | blockwise.go:150-195 | A served block carries its number, size and slice, More exactly if bytes remain, and the request's token and Message ID. |
| BlockCache.ServedOptions | blockwise.go:150-182 | A served block keeps the cached response's other options; Size2 is the total length with block 0, and Block1 is dropped with later ones. |
| BlockCache.SlicesTile | blockwise.go:162-175 | Consecutive blocks are consecutive bytes, and More is clear exactly at the end. |
| BlockCache.EntryLastsItsTimeout | blockwise.go:15-31 | Over every run, an entry used at some time outlives every expiry pass within the inactivity timeout, and the first later pass removes it. |
| BlockCache.UseStartsTimeout | blockwise.go:128-195 | Storing, extending and serving an entry each start its timeout afresh. |
| Dedup.DeduplicateKeepsValid | dedup.go:21-39 | Deduplication records the pair under an entry of its own, reports it new exactly if it was not recorded, and changes nothing otherwise. |
| Dedup.FirstArrivalHolds | dedup.go:21-39 | A first arrival starts a window in which its pair may not be deleted. |
| Dedup.DuplicateIsRecognised | dedup.go:21-59 | Over every run inside the expiration window a repeated message is told it is a duplicate and given the same entry. |
| Dedup.DuplicateGetsSameAnswer | dedup.go:21-59 | Once an entry is answered and not written again, every duplicate in the window finds that same answer. |
| Dedup.SweepForgets | dedup.go:46-59 | A watcher pass forgets a recorded pair exactly if its endpoint's deletion time has passed. |
| Pending.RunKeepsInv | handle_ack.go:11-70 | Every run keeps: references lead to entries saved under them, deliveries match and use up a reference, Message IDs count up modulo 2^16. |
| Pending.Correlation | handle_ack.go:11-70 | Over every run an entry has at most one token and one Message ID, is offered at most one non-empty message, with its token, and one empty one, with its Message ID. |
| Pending.MessageIdsAreFresh | send.go:111-117 | Over every run two allocations collide exactly when they are a multiple of 65536 apart. |
| Pending.SavedIsFound | handle_ack.go:11-24 | After saving, the token and the Message ID lead to the new entry, whose mailbox is empty, and 65535 further Message IDs are given out before its own comes round. |
| Pending.ReplyFindsSender | handle_ack.go:51-66 | Over every run in which nothing else uses its token, the next reply under it reaches its sender's entry, and is kept if and only if the mailbox is empty. |
| Pending.EmptyFindsSender | handle_ack.go:26-49 | Over every run in which no other message carries its Message ID and the counter does not come round to it, the next empty message with that ID reaches its sender's entry, and is kept if and only if the mailbox is empty. |
| Pending.AwaitedIsFound | handle_ack.go:26-70 | An empty message is found exactly if its Message ID is pending, any other exactly if its token is; it then uses up that reference, a non-empty one that of its Message ID too; else nothing changes. |
| Handler.DuplicateChangesNothing | handler.go:42-55 | A duplicate touches no table, cache, pending map or callback; it is ignored while the answer is pending and gets that answer afterwards. |
| Handler.ReplayedBytes | message_parse.go:219 | However often a saved answer is marshalled, which sorts its options in place, it goes out as the same bytes. |
| HandlerFrame.DispatchFrame | handler.go:56-218 | A message that is not a duplicate touches its own block key and dedup entry only, and is answered under its own token and Message ID. |
| HandlerFrame.CompleteFrame | handler.go:184-218 | The part that runs after the callback touches the same key and entry only, and keeps the answer's token and Message ID. |
| HandlerFrame.DispatchBlock | handler.go:56-88 | Block 0 starts the cached upload, a middle block extends it only if it is the next one, and the callback is given what is cached followed by the last block. |
| Invocation.LastBlockInvokes | handler.go:42-75 | The last block of an upload reaches the callback if and only if its pair is not recorded, what came before it is cached, and there is a route; the callback then sees the joined payload. |
| Invocation.ContinuationFallsThrough | handler.go:97-104 | A request for a further block reaches the callback as a new request if and only if it is not a duplicate, the cached response is gone or too short, and there is a route. |
| Invocation.ForgottenRequestIsRepeated | dedup.go:46-59 | After the endpoint is forgotten, a request delivered again reaches the callback again. |
| Invocation.ResponseIsCorrelated | handler.go:90-95 | A new response without blocks is matched against the pending maps and touches nothing else; a matching confirmable one is acknowledged with its Message ID, and an unmatched other one is reset; it matches exactly if its token, or its Message ID if empty, is pending. |
| Responses.WholeAnswer | handler.go:184-218 | A callback's answer that fits is sent with its code, token, Message ID, payload and options, Block1 echoed; its type changes only from ACK to NON, for a non-confirmable request; and that message is saved for duplicates. |
| Responses.AnswerInBlocks | handler.go:184-216 | One that does not fit is cached whole under the request's key, and its first block, or the one asked for, is sent with its number, size, More and the total length; a block beyond its end gets 5.00. |
| Responses.RoutedRequest | handler.go:20-218 | A new request with a route is seen by the callback, whose answer is sent in one of these two ways; no answer, no response. |
| Responses.UnroutedRequest | handler_confirmable.go:33-40 | A new request without a route gets 4.04 under its token and Message ID. |
| Responses.Ping | handler_confirmable.go:10-22 | An empty message that asks for an answer is reset. |
| Responses.ResetIsIgnored | handler.go:37-40 | A reset changes nothing and is not answered. |
| Responses.Continuation | handler.go:97-103 | A request for a block of a cached response gets that block with the response's options and keeps it cached for another timeout; the callback does not see it. |
| Responses.UploadedBlock | handler.go:57-88 | A block of an upload that is followed by another gets 2.31 with its own Block1 if it is the first or the next one, else 5.00; the callback does not see it. |
| Responses.LostUpload | handler.go:66-73 | The last block of an upload that is no longer cached gets 5.00. |
| Responses.ObservedResponse | handler_notify.go:7-41 | A confirmable notification is acknowledged if somebody waits for it and reset if not. |
| Responses.SeparateResponseInBlocks | handler.go:118-140 | The first block of a confirmable separate response is acknowledged at once, under a new Message ID if its own is 0, and then acknowledged or reset like any response. |
| Responses.AwaitedAcknowledgement | handler.go:90-95 | An acknowledgement somebody waits for, with whatever blocks, goes to that sender and is not answered. |
| Responses.LaterBlock | handler.go:118-182 | A further block of a separate response goes to the sender who waits for it; a confirmable one is then acknowledged, and a non-confirmable one nobody waits for is reset. |
| Responses.KeyTellsApart | message.go:67-69 | Requests that differ in one of address, code, path and query only have different block keys. |
| ServerRuns.ReachableInv | handler.go:20-55 | In every state the server can reach, each running callback owns a dedup entry of its own that has no answer yet. |
| ServerRuns.RequestReachesCallbackOnce | handler.go:42-55 | Over every run, any confirmable or non-confirmable message reaches the callback at most once from its first arrival to the end of the expiration window, whatever else arrives, whatever the server sends itself and whatever callbacks answer. |
| ServerRuns.DuplicatesAgree | handler.go:42-55 | Over every run inside the window a duplicate changes nothing on the server, and once one has been given an answer all later ones are given that answer. |
| ServerRuns.CallbackAnswerIsReplayed | handler.go:20-55 | A duplicate is ignored while the callback runs and afterwards gets exactly the response made of what the callback returned. |
| ServerRuns.DirectAnswerIsReplayed | handler.go:20-55 | A duplicate of a message that was answered without the callback gets that same answer. |
| ServerObject.Server.Deduplicate | dedup.go:21-39 | The table, entry and verdict are those of the table operation. |
| ServerObject.Server.SaveEntry | dedup.go:41-44 | The entry gets the answer and stops being pending. |
| ServerObject.Server.WatchDedup | dedup.go:46-59 | One pass over the deletion times deletes exactly the endpoints whose time has passed. |
| ServerObject.Server.PendingSave | handle_ack.go:11-24 | Saves a new entry under the token and the next Message ID. |
| ServerObject.Server.GetNextMsgId | send.go:111-117 | Hands out the next Message ID. |
| ServerObject.Server.HandleAcknowledgement | handle_ack.go:26-70 | Takes the reference out of the maps and offers the message without blocking. |
| ServerObject.Server.BlockCachePut | blockwise.go:128-133 | Stores the message as a transfer whose last block is 0. |
| ServerObject.Server.BlockCacheAppend | blockwise.go:135-148 | Extends the payload only by the block after the last one. |
| ServerObject.Server.BlockCacheGet | blockwise.go:150-182 | Serves the asked block or reports that there is none. |
| ServerObject.Server.ExpireBlocks | blockwise.go:15-31 | One pass deletes exactly the entries whose time has passed. |
| ServerObject.Server.FinishReply | handler.go:184-218 | Echoes Block1, and stores and serves a response that is too large. |
| ServerObject.Server.Respond | handler.go:149-182 | The switch on the message type, with the callback's answer. |
| ServerObject.Server.AcknowledgeAndRespond | handler.go:90-148 | From the acknowledgement check to the switch, with the early acknowledgement of a block-wise separate response. |
| ServerObject.Server.UploadAndRespond | handler.go:56-88 | The Block1 branch and everything after it. |
| ServerObject.Server.HandleMessage | handler.go:11-219 | The object's new state, the response, what the callback saw and what was sent early are those of the pure handler. |
| ClientSend.PrepareChunk | send.go:39-50 | Cuts out the chunk and marks it, or reports the slice that would be out of range. |
| ClientSend.MoveOn | send.go:62-72 | Follows the responder's block size to the next chunk's number. |
| ClientSend.SendChunks | send.go:35-70 | The chunk loop sends and returns what the recursive upload does. |
| ClientSend.FetchBlocks | send.go:85-105 | So does the loop that asks for the rest of a response. |
| ClientSend.Send | send.go:17-109 | `Send` as a whole. |
| ClientSend.NextChunkIsAdjacent | send.go:59-65 | After an echoed number the next chunk starts at the very next byte if and only if the responder's size divides the current one. |
| ClientSend.ChunksTile | send.go:35-70 | Against a responder that keeps or evenly shrinks the size, the chunks sent are adjacent pieces of the payload, and a finished upload has sent all of it. |
| ClientSend.ChunksAreLabelled | send.go:39-50 | More is clear only on a chunk that reaches the end, and each chunk's number times its size is its place in the payload if and only if the last number fits 20 bits. |
| ClientSend.UploadTerminates | send.go:35-70 | Every chunk followed by another takes at least 16 bytes off what is left, and with a reply to each chunk the upload finishes. |
| ClientSend.FetchesTheRest | send.go:85-105 | With its own reply to each request the download appends exactly the rest of the cached payload in exactly the blocks that are left. |
| ClientSend.TooManyNeverEnds | send.go:85-105 | With more than 2^20 blocks the download asks for earlier blocks again and never ends, however many replies it gets. |
| ClientSend.DownloadIsExact | send.go:85-105 | The download loop ends with the cached payload after ceil(length / size) - 1 requests, also for an exact multiple, if and only if the size is one that can be written and there are at most 2^20 blocks. |
| ClientSend.SendReturnsWhole | send.go:17-109 | When the reply to the request, or to the last chunk of an upload, is the first block of a cached response, `Send` returns the whole cached payload after that many further requests, under exactly the same condition. |
| ClientSend.RequestReturnsWhole | send.go:72-109 | In particular for a request that needs no upload. |
| Requests.WholeRequest | send.go:72-76 | A request that fits goes out as it was given, options reordered at most; with a complete reply nothing else is sent and the reply is the result; without a reply or with a failure the result says so. |
| Requests.FirstChunk | send.go:30-52 | One that does not fit starts with its first `blockSize` bytes as block 0, with the total in Size1 and its other options as they were. |
| Requests.UploadWasContinued | send.go:53-60 | An upload that finishes had a 2.31 with Block1 for every chunk but the last, and its result is the reply to the last. |
| Requests.FetchEndsWithLastReply | send.go:85-105 | A download that finishes had More in every reply but the last, and its result is the last reply with all the payloads put together. |
| Requests.SendKeepsRequest | send.go:17-109 | Whatever the replies, every message sent has the request's type, code, token, Message ID and other options. |
| Requests.RestIsAskedFor | send.go:78-105 | The rest of a response is asked for without payload or Block1, by block 1, 2, 3 and so on modulo 2^20, each at the size of the block before it. |
| Transfers.MachineIsSend | send.go:52-83 | One reply moves the client of the step system exactly as it moves the upload loop of `Send`. |
| Transfers.MachineIsFetch | send.go:85-105 | And exactly as it moves the loop that asks for the rest of the response. |
| Transfers.MachineStartsFetch | send.go:78-90 | The client of the step system enters its second phase exactly when `Send` does, with the same message and block. |
| Transfers.ChunkNumbers | send.go:39-46 | Chunks up to the final one lie within the data and only the final one has More clear. |
| Transfers.ChunkArrives | send.go:46-52 | A chunk arrives under the transfer's key and token with its slice and its block, whatever the client did to the message before. |
| Transfers.FetchArrives | send.go:81-96 | A request for the rest of the response arrives under the same key and token, with no Block1. |
| Transfers.ServerReplyArrives | handler.go:58-88 | A Continue arrives with the block it acknowledges, a failure with none. |
| Uploads.AcceptKeepsPlace | send.go:52-73 | Taking any reply under its token, however old, leaves a client no further than the block after one the server has stored. |
| Uploads.FinalDelivered | handler.go:66-75 | If the final chunk invokes the callback, what the callback sees is the whole payload. |
| Uploads.MiddleDelivered | handler.go:60-88 | A chunk before the final one is stored or refused, and either way the cached prefix, the client and the replies stay in step. |
| Uploads.ReturnKeepsInv | handler.go:184-218 | A callback returning at any later time, with any answer under its request's token, disturbs no upload still going on. |
| Uploads.ExpireKeepsInv | blockwise.go:15-31 | A block cache entry may expire at any time without making an upload wrong. |
| Uploads.StepKeepsInv | handler.go:42-88 | Every step of clients, network, server and timers keeps the invariant over client progress, cached prefix, dedup table and packets in flight. |
| Uploads.CachedUploadIsPrefix | blockwise.go:128-148 | Over every run, what is cached for an upload whose final chunk is not in is the prefix of `last` + 1 blocks. |
| Uploads.TakenFitsMids | dedup.go:21-39 | Every chunk the server takes in uses up a recorded Message ID of its own, so while none is forgotten it takes in none after number 65535, whatever IDs the client uses. |
| Uploads.UploadSafety | send.go:30-70 | Over every run, under any loss, duplication, reordering, use of Message IDs, other traffic and block expiry, the route callback sees an upload at most once, and then with exactly the payload given to `Send`. |
| Uploads.OverlongIsNeverSeen | dedup.go:21-39 | On no run in which the server forgets no uploading address does an upload of more than 65536 chunks reach the callback, whatever Message IDs its client uses again. |
| Completion.UploadCompletes | handler.go:58-88 | If nothing is lost and nothing expires, some run does bring the whole payload to the callback. |
| Completion.CompletesExactly | dedup.go:21-39 | With no dedup expiry of an uploading address, some run brings the whole payload to the callback if and only if the upload has at most 65536 chunks, whatever Message IDs are used. |
| Exchange.ServerTakes | handler.go:58-88 | What the server does with a new chunk: start, extend or refuse, or join it to what is cached for the callback. |
| Exchange.OneTurn | send.go:36-73 | One new chunk on both sides, for any size: what is cached after it, what the callback sees, and where the client goes on. |
| Exchange.SeesTheWhole | send.go:36-73 | With a legal size and at most 2^20 chunks the callback sees what was stored followed by the rest of the data, or nothing. |
| Exchange.TooManyAreNeverWhole | blockwise.go:76-120 | With more than 2^20 chunks it never sees the payload, however the exchange goes. |
| Exchange.WorksOrNever | send.go:36-73 | Over every exchange: the payload or nothing if the size works, never the payload if it does not. |
| Exchange.WholeExactly | send.go:36-73 | For any block size: some exchange, in which endpoints may be forgotten between chunks, shows the callback the payload if and only if one chunk is enough, or the size is legal and there are at most 2^20 chunks, or the size is a multiple of 16 followed by one chunk of at most 16 bytes whose number is not cut to 0. |
| Exchange.ForgottenIdsCarryOn | dedup.go:46-59 | Once the server forgets the uploader's Message IDs on the way, an upload of more than 65536 and at most 2^20 chunks is seen whole. |
| Exchange.IllegalSizeOverlaps | send.go:62-68 | With size 100, read as 16, a payload of 110 bytes is seen as its first 100 bytes followed by those from 96 on. |
| Overlong.UsedIdGoesBack | handler.go:42-55 | A chunk under a Message ID still recorded with an earlier chunk's Continue is answered with that Continue, the server unchanged, and takes the client back to the chunk after that one, or ends the upload if it is the final chunk. |
| Overlong.LastChunkAlone | blockwise.go:76-120 | If chunk 2^20 is the final one it arrives as block 0 with More clear, and the callback is given that chunk alone, whatever is cached. |
| Overlong.UploadStartsAgain | blockwise.go:76-120 | If more chunks follow it, the server stores it as the start of a new upload and its Continue takes the client back to chunk 1. |
| Retransmit.AwaitReply | send.go:169-225 | The wait after the first transmission, with or without retransmissions, ends as the recursive loop does. |
| Retransmit.RetryLoop | send.go:183-225 | The loop over `timeout`, the clock and `retryCount` has the outcome and history of the recursive one. |
| Retransmit.EveryRunIsBounded | send.go:169-225 | Every run ends with at most MAX_RETRANSMIT + 1 transmissions, the last within MAX_TRANSMIT_SPAN, and a total wait of at most MAX_TRANSMIT_WAIT. |
| Retransmit.SilentRun | send.go:184-222 | A sender that hears nothing doubles its wait each time; its last wait is no shorter than the next doubling and makes the total exactly MAX_TRANSMIT_WAIT. |
| Retransmit.EveryRunIsExplained | send.go:184-225 | The first decisive message in time is returned, the first failing resend ends the run, and a timeout happens exactly if neither comes in any turn; the transmissions are counted exactly. |
| Retransmit.FirstMessageIsReturned | send.go:184-200 | The first message in time, before the last turn and after silent ones, is returned; for a message that is not a request an empty acknowledgement counts as well. |
| Retransmit.TimeoutIsFullUnlessAcknowledged | send.go:189-197 | A run that times out has waited MAX_TRANSMIT_WAIT in full unless, and only unless, an empty acknowledgement arrived early in its last turn. |
| Retransmit.AcknowledgedRequestIsResent | send.go:189-222 | An empty acknowledgement in any turn of a request does not end the exchange, and a transmission follows it if and only if some later turn but the last brings nothing in time. |
| Retransmit.WithoutRetransmissionsNoWait | send.go:170-181 | Without retransmissions the wait is zero: only a reply already there is returned. |
| Nstart.OutstandingIsBounded | nstart.go:14-59 | Over every interleaving, if the limits passed for an address are positive and at most N, its count is the number of its sends between `nstartInc` and `nstartDec`, and at most N, whatever happens at other addresses. |
| Nstart.BoundedRun | nstart.go:14-59 | The invariant behind it; an address keeps its semaphore. |
| Nstart.NoWakeupIsLost | nstart.go:14-59 | Over every interleaving, if the sends to an address that have a limit have the same one, a free slot while some waiter sleeps means another waiter has been woken for it. |
| Nstart.WakeupRun | nstart.go:14-59 | The invariant behind it: with a sleeper, slots taken and waiters woken use up the limit. |
| Nstart.MixedLimitsLoseAWakeup | nstart.go:18-24 | For any two different positive limits there is a run of one address, using only those, in which a slot is free, a waiter that could take it sleeps and nobody is woken. |
| Nstart.OneLimitIsExactlyEnough | nstart.go:14-59 | No run strands a waiter if and only if every address has at most one positive limit. |
| Nstart.UnlimitedSendBreaksTheBound | nstart.go:48-59 | For any positive N and any limit that is not positive there is a run of one address, using only those, in which N + 1 sends under limit N are in progress at once. |
| Nstart.BoundHoldsExactly | nstart.go:14-59 | On every run, at each address at most N sends that passed a positive limit are in progress, for every N >= 1 that no limit allowed there exceeds, if and only if no address allows both a positive limit and one that is not positive. |
| Nstart.Semaphores.LookUp | nstart.go:14-32 | The critical section under the map's lock is the step of the interleaving model. |
| Nstart.Semaphores.TryAcquire | nstart.go:19-24 | So is one test under the semaphore's lock. |
| Nstart.Semaphores.FindForRelease | nstart.go:48-51 | So is the lookup of `nstartDec`. |
| Nstart.Semaphores.ReleaseAndSignal | nstart.go:52-55 | So is its decrement and signal. |
| Routes.InsertPointwise | route.go:27-58 | A registration visits exactly the nodes on the way to its pattern: creates the missing ones, sets the last one's callback, leaves all others alone. |
| Routes.RegisterPointwise | route.go:19-59 | What one `AddRoute` does to each pattern, with "/" wiping the subtree of the first-level wildcard. |
| Routes.LastRegistrationWins | route.go:19-59 | Over every sequence of registrations a node's callback is the last one registered for its pattern. |
| Routes.TableContents | route.go:19-59 | A pattern is in the table if and only if some registration passed through it and no "/" wiped it since. |
| Routes.FirstNameStays | route.go:19-59 | Over every sequence of registrations, a node's variable has the name given by the first registration through it since "/" last replaced or wiped it; later names are ignored. |
| Routes.PresentIsNamed | route.go:19-59 | Every node in the table has such a first registration. |
| Routes.BoundAsNamed | route.go:61-88 | So what a match binds can be told from the registrations alone. |
| Routes.MatchIsGreedy | route.go:61-88 | Matching returns the callback and variables of the one pattern that the literal-first rule reaches and cannot extend. |
| Routes.RegisteredRouteIsFound | route.go:19-88 | A request whose segments lead to a registered pattern, literal children first, gets the callback last registered for it, and the variables of the wildcards it passed under the names their first registrations gave. |
| Routes.OwnLabelsFindRoute | route.go:19-88 | The pattern's own labels always lead to it, whatever wildcards are beside it. |
| OneRoute.OneRouteMatches | route.go:19-88 | With one route of literals and variables, a request gets its callback if and only if its first segments are the literals, with anything for a variable, and each variable is then bound to what it took. |
| OneRoute.VariableIsBound | route.go:19-88 | In particular "/a/{name}" binds the name to the second segment. |
| OneRoute.RootTakesAny | route.go:21-25 | The route "/" takes any first segment, under the empty name. |
| Routes.Router.AddRoute | route.go:19-59 | The tree in the heap stays a tree and stands for the table with the route registered. |
| Routes.Router.MatchRoutes | route.go:61-88 | Walking the tree gives the callback and variables of the table match. |

## Left out

- Listeners, DTLS, proxying, sockets, logging, sniffing and configuration: input and output.
- observe.go and the observation branch of `handleNotify`: no observation is ever registered, so `blockRetreive` always fails.
- `NstartClear`, `nstartCount` and `NstartEntryCount`: the limits are claimed for runs without a clear.
- The special route `~keepalive`, `getSpecialRoute`, `ParseQuery`, `WithQuery` and the remaining setters: they would add only easy members.
- A non-confirmable request whose callback returns nil: the source dereferences it; the model answers nothing.
- `toBytes` on Go types it does not know, which panics, and Uri-Path values that are not strings: option values are a datatype of the types it knows.
- Slice aliasing and spare capacity, as in the payload `blockCacheGet` appends to: payloads are values.
- Pointers to dedup and pending entries are indices into sequences that only grow; `issued` and `delivered` in `Pending` and `seen`, `taken`, `firsts` and `finals` in `Uploads.World` record history that no step reads.
- Floating point, the random number and the wall clock: times are exact numbers, the first timeout any number in its range, and each time is a parameter.
- `sort.Stable` is an insertion sort here; its result is the only possible one.
- Go's `int` is unbounded here, as are block numbers until they are encoded.
- Each operation on the shared maps is one atomic step, except in `Nstart`; races between goroutines inside `handleMessage` are not modelled.
- Handler.BlockKey: uses the code itself for its name and does not claim that different requests have different keys; uploads are assumed to have different ones.
- ClientSend.Send: leaves the token and Message ID as given, since `send` fills them in; `Transfers` and `Uploads` set them.
- ClientSend.SendReturnsWhole: asks, as `ClientSend.DownloadIsExact` does, that each request receives its own reply, because replies match by token only and `Send` uses one token for all blocks.
- Retransmit.AwaitReply: starts after the first transmission; choosing a listener, a failing first write and messages that wait for no reply are not modelled.
- Dedup.DuplicateGetsSameAnswer: leaves it to the handler that an answered entry is not written again; `ServerRuns.DuplicatesAgree` proves that it is not.
- ServerObject.Server.SaveEntry: like `BlockCachePut` and `GetNextMsgId`, a one-line update whose meaning is in the lemmas about the pure operation.
- Uploads.UploadSafety: asks for confirmable requests that the codec can carry, a block size that can be written (`Exchange.WholeExactly` says what other sizes do), distinct keys and tokens, and no dedup expiry of an uploading address; it speaks of callback invocations that carry a Block1 option; requests for the rest of a response may invoke the callback again, as `Invocation.ContinuationFallsThrough` states.
- Completion.CompletesExactly: asks for no dedup expiry of an uploading address, as `Uploads.UploadSafety` does (`Exchange.ForgottenIdsCarryOn` is without it), and for a request with a method, a route and no Block2 option of its own.
- Exchange.WholeExactly: nothing is lost, no block expires, and a chunk taken for a duplicate ends the exchange.
- Routes.Router.AddRoute: asks that no segment is a lone opening brace, on which the source slices out of range; a nil and an empty variable map are the same.
