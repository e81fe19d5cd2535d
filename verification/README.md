# Verified models of fakessh

A Dafny 4.11 project that models the hardest parts of fakessh, an SSH honeypot server written in Go with a
vendored SSH stack (`third/ssh`), a fake shell (`modules/fakeshell`) and a Git session layer
(`modules/gitserver`), and proves what those parts promise. `dafny verify dfyconfig.toml` checks everything.

Objects that the source updates in place are classes whose methods are proved equal to functions on their
abstract value. Concurrent code is a step system: every lock-protected region, channel operation and I/O call
is one atomic step, a run is any sequence of enabled steps, and the theorems hold in every state of every run.
Ciphers, hashes, signatures, callbacks and the environment are uninterpreted functions or step inputs.

| file | what it models |
|---|---|
| `Bytes.dfy` | byte strings, big- and little-endian numbers, bitwise operators on naturals |
| `Poly1305.dfy` | the streaming Poly1305 MAC in 64-bit limbs against the polynomial modulo 2^130-5 |
| `Mpint.dfy`, `Messages.dfy`, `Certs.dfy` | the wire codec: strings, mpints, schemas of struct fields, certificate option tuples |
| `Cipher.dfy`, `CipherAead.dfy`, `CipherCbc.dfy`, `PacketStream.dfy` | packet framing in all four cipher modes, one packet and whole transcripts |
| `Buffer.dfy`, `Channel.dfy`, `FlowControl.dfy` | the linked-list buffer, one channel's window accounting, and two endpoints with packets in flight |
| `Handshake.dfy`, `Negotiate.dfy`, `KeyMaterial.dfy`, `Transport.dfy`, `Lockstep.dfy` | re-keying with queued writes, algorithm negotiation, key derivation, sequence numbers and cipher switching |
| `ServerAuth.dfy` | the user-authentication loop with its budgets, stages and public-key cache |
| `AgentPipeline.dfy` | the ssh-agent request pipeline and its shutdown race |
| `ShellInput.dfy`, `ShellWords.dfy`, `ShellTokens.dfy`, `ShellParse.dfy`, `ShellLoop.dfy` | the shell's separator scan, tokenizer, line parser and streaming read loop |
| `Paths.dfy`, `ShellPath.dfy`, `Redirection.dfy` | fake paths, the dynamic store and redirection as a transaction |
| `GitCommand.dfy`, `GitLifecycle.dfy`, `GitSession.dfy` | Git command parsing and printing, the local process wait, the session protocol |

## Main results

1. For every key, message and way of splitting the message across writes, the limb code computes
   ((chunk polynomial at the clamped r) mod 2^130-5 + s) mod 2^128 (`Poly1305.SumOfPieces`).
2. In every run of two endpoints the window is conserved, so no conforming peer is ever refused, what is read is
   a prefix of what was written, and a drained channel keeps all but three packets of credit. A reader that is told
   of the end has read everything, unless a call was in progress when the stream was closed (`FlowControl`).
3. Writes accepted during re-keying reach the wire exactly once and in order (`Handshake.OrderedWrites`). An
   exchange that fails keeps the wire well formed exactly when NEWKEYS was out, nothing was queued or already the
   first push failed, and is remembered exactly when nothing was queued or a push failed
   (`Handshake.FailedExchange`).
4. Two endpoints that agree on strict mode stay in lockstep over any number of re-keys (`Lockstep.InLockstep`);
   two endpoints of this library always agree. When they disagree, a packet is lost exactly when its cipher uses
   the sequence number and the two ways of counting differ there (`Lockstep.OutOfStep`). They differ from the first
   NEWKEYS to the second; AES-GCM ignores the number, so it never fails.
5. Every agent call gets its own reply or a non-nil error, no channel is sent to or closed twice, and shutdown waits
   for nothing but a write in progress (`AgentPipeline`).
6. What Unmarshal makes of Marshal is known for every schema and value, so the round trip has its exact condition;
   mpints round-trip and never grow; every cipher mode's reader recovers what its writer framed, with the exact
   condition.
7. The authentication loop keeps its budgets, fixes the user after a partial success, and gives the same outcome
   with and without the key cache; every success is backed by the verdict of the stage's callback on the request
   that brought it, and with a key also by a verified signature.
8. The streaming shell loop does exactly what a batch splitter with a line limit does, however reads are chunked, and
   when it returns before the end of input it has executed exactly the segments complete in the bytes its reads
   brought; the two hand-written scanners agree; the line parser accepts exactly the well-formed lines and keeps every
   word and redirection. Redirections reserve all targets or change
   nothing, unless a target is relative to a working directory with a bad character (`Redirection.TornReservation`).
9. The Git child is reaped exactly once and last, a session starts its backend at most once and only on a received
   and authorized command, and the command printer and parser undo each other.

## Model

| member | source | states |
|---|---|---|
| Poly1305.Initialize | third/ssh/internal/poly1305/sum_generic.go:106-111 | the masks make r the clamped number of the first 16 key bytes, s is the number of the last 16, h is zero |
| Poly1305.ClampedR | third/ssh/internal/poly1305/sum_generic.go:97-111 | the two masked limbs are the little-endian value of the clamped key bytes |
| Poly1305.Add128 | third/ssh/internal/poly1305/sum_generic.go:124-131 | 128-bit addition with carry is addition of the two-limb values whenever the sum fits, so the overflow panic is out of reach |
| Poly1305.ShiftRightBy2 | third/ssh/internal/poly1305/sum_generic.go:133-137 | shifting across the limbs is division of the two-limb value by four |
| Poly1305.Select64 | third/ssh/internal/poly1305/sum_generic.go:267-273 | the masking expression selects x or y |
| Poly1305.Multiply | third/ssh/internal/poly1305/sum_generic.go:170-218 | the four product limbs are exactly h times r and no carry is lost |
| Poly1305.Reduce | third/ssh/internal/poly1305/sum_generic.go:220-263 | the folded limbs are congruent to the product modulo 2^130-5 and h2 stays at most 5 |
| Poly1305.UpdateGeneric | third/ssh/internal/poly1305/sum_generic.go:146-265 | the block loop computes the chunk polynomial modulo 2^130-5 for every message, full and partial blocks |
| Poly1305.Finalize | third/ssh/internal/poly1305/sum_generic.go:285-312 | one conditional subtraction suffices and the tag is (h mod 2^130-5 + s) mod 2^128 in little-endian bytes |
| Poly1305.HornerIsPolynomial | third/ssh/internal/poly1305/sum_generic.go:139-146 | the block-by-block accumulator equals the explicit sum of chunk times power of r |
| Poly1305.MacGeneric.Write | third/ssh/internal/poly1305/sum_generic.go:64-84 | buffering, topping up and bulk absorption keep the object's abstract value: the message so far |
| Poly1305.MacGeneric.Sum | third/ssh/internal/poly1305/sum_generic.go:89-95 | the tag of the message written so far, leaving the object unchanged |
| Poly1305.SumOfPieces | third/ssh/internal/poly1305/sum_generic.go:37-95 | writing any list of pieces and summing gives the specification tag of their concatenation |
| Mpint.ParseEncodedString | third/ssh/messages.go:605-620 | a string is parsed back from in front of any rest exactly when the 32-bit truncation of the length comparison does not bite |
| Mpint.ParseIntMeaning | third/ssh/messages.go:644-666 | what parseInt returns is the two's complement value of the contents |
| Mpint.IntLengthExact | third/ssh/messages.go:682-705 | intLength is exactly the number of bytes of the encoding, for every integer |
| Mpint.ContentsMean | third/ssh/messages.go:717-762 | the bytes written for n have two's complement value n |
| Mpint.ParseEncodedInt | third/ssh/messages.go:644-762 | parseInt of the encoding followed by any rest returns the integer and the rest, exactly when the string parses |
| Mpint.IntContentsMinimal | third/ssh/messages.go:717-762 | no contents with the same value are shorter than the ones written |
| Mpint.ReencodeNeverLonger | third/ssh/messages.go:644-762 | re-encoding any mpint that parses never lengthens it |
| Mpint.MarshalInt | third/ssh/messages.go:717-762 | the buffer's front holds the encoding, its rest is untouched, and the returned position is intLength |
| Messages.SplitJoinExactly | third/ssh/messages.go:627-642 | a name list survives joining and splitting exactly when no name holds a comma |
| Messages.NamesRoundTrip | third/ssh/messages.go:627-642 | a name list always comes back as joined and split, which is itself exactly when it is comma-free and not the list of one empty name |
| Messages.FieldRoundTrip | third/ssh/messages.go:396-603 | one field of any kind is read back from in front of the rest of the message, as itself exactly when splitting restores it |
| Messages.RoundTrip | third/ssh/messages.go:396-603 | what Unmarshal makes of Marshal, for every schema with rest last and every value below 2^32 bytes; it is the value exactly when the encoding is not empty, a type tag is not zero, and every name list is one that splitting restores |
| Messages.EmptyNameIsLost | third/ssh/messages.go:627-642 | the value that shows why the empty name is excluded |
| Messages.MarshalStruct | third/ssh/messages.go:524-603 | the field loop appends exactly the specified encoding |
| Messages.UnmarshalStruct | third/ssh/messages.go:396-512 | the field loop returns exactly the specified value or the specified error |
| Messages.SignedDataInjective | third/ssh/common.go:599-620 | equal signed blobs have equal session identifiers, users, services, methods, algorithms and keys |
| Certs.SortedKeys | third/ssh/certs.go:129-136 | the sorted key list holds every key of the map once, in byte order |
| Certs.MarshalTuples | third/ssh/certs.go:129-145 | the bytes are the encoding in that order, and parsing them gives back the map |
| Certs.ParseTuples | third/ssh/certs.go:149-186 | the parse loop returns the map or the first error, including out-of-order keys and trailing data |
| Certs.TuplesRoundTrip | third/ssh/certs.go:129-186 | parsing what was marshalled gives back every option map |
| Certs.SortedUnique | third/ssh/certs.go:129-136 | a map has only one sorted key list, so the encoding is canonical |
| Cipher.Padding | third/ssh/cipher.go:259-262 | at least four bytes of padding, and the padded size is a multiple of the block |
| Cipher.StreamRoundTrip | third/ssh/cipher.go:170-325 | EtM and MAC-then-encrypt: the reader recovers the payload and consumes the frame exactly when the payload is not empty and payload plus padding fits the reader's bound |
| Cipher.StreamOtherNumber | third/ssh/cipher.go:170-325 | a frame read under another sequence number gives the packet exactly when the MAC does not tell the numbers apart, and a MAC failure otherwise |
| CipherAead.IncIV | third/ssh/cipher.go:387-394 | the carry loop adds one modulo 2^64 to bytes 4..11 and leaves bytes 0..3 alone |
| CipherAead.GcmRoundTrip | third/ssh/cipher.go:353-437 | the same exact condition for AES-GCM, with any seal whose open undoes it |
| CipherAead.ChaChaRoundTrip | third/ssh/cipher.go:689-811 | the same exact condition for ChaCha20-Poly1305, with the Poly1305 model as tag |
| CipherCbc.DecryptEncrypt | third/ssh/cipher.go:606-660 | chained decryption undoes chained encryption for any invertible block function |
| CipherCbc.CbcRoundTrip | third/ssh/cipher.go:516-660 | the same exact condition for CBC, and reader and writer end with the same chaining block |
| CipherCbc.FailuresReadTheSame | third/ssh/cipher.go:516-604 | on a long enough stream every verification failure has consumed maxPacket + 4 + macSize bytes in all |
| PacketStream.PaddingRule | third/ssh/cipher.go:259-811 | every mode pads with 4 to 19 bytes and aligns what it encrypts |
| PacketStream.SmallFits | third/ssh/cipher.go:200-206 | payloads of 1 to maxPacket-20 bytes always meet the reader's bound |
| PacketStream.OnePacket | third/ssh/cipher.go:170-811 | in every mode the reader recovers the packet and ends in the writer's keystream, IV or chaining state |
| PacketStream.NumberIgnored | third/ssh/cipher.go:353-437 | AES-GCM, and a stream without MAC, read a packet back whatever sequence numbers the two sides have |
| PacketStream.Transcript | third/ssh/cipher.go:170-811 | every run of sendable packets is read back payload by payload, whatever bytes follow |
| PacketStream.StreamPacketCipher.WriteCipherPacket | third/ssh/cipher.go:248-325 | encrypting piece by piece writes the specified frame and advances the keystream by the specified amount |
| Buffer.Buffer.Write | third/ssh/buffer.go:44-51 | the unread bytes grow by exactly what was written |
| Buffer.Buffer.CloseWrite | third/ssh/buffer.go:55-60 | closing changes no contents |
| Buffer.Buffer.Read | third/ssh/buffer.go:64-97 | what is returned is the longest prefix that fits, across links; EOF only when closed and empty |
| Channel.Window.Add | third/ssh/common.go:668-685 | refuses exactly the updates that would overflow 32 bits |
| Channel.Window.Reserve | third/ssh/common.go:699-717 | hands out at most what is there and loses nothing |
| Channel.ParsePacket | third/ssh/channel.go:251-340 | a data packet built by the writer says to the reader what the writer meant |
| Channel.ReceiverObject.Handle | third/ssh/channel.go:305-363 | charges the window, stores the payload in its stream, and refuses malformed, oversized and over-window packets |
| Channel.ReceiverObject.Adjust | third/ssh/channel.go:365-384 | the 32-bit arithmetic never wraps and window plus consumed grows by the credit |
| Channel.MinPayload | third/ssh/channel.go:141-146 | never above limit or length, and positive when both are |
| Channel.WriteExtended | third/ssh/channel.go:251-303 | packet after packet carries the next chunk of the data, as large as limit and window allow, and n counts what they carry; it fails exactly when a round fails before all is sent |
| FlowControl.Conservation | third/ssh/channel.go:251-408 | in every state of every run: window + reserved + data in flight + credit in flight + unread + uncredited + consumed is channelWindowSize |
| FlowControl.NeverRefused | third/ssh/channel.go:305-363 | the raw packet at the front of the wire is accepted by handleData, and no window update overflows |
| FlowControl.ReadsArePrefix | third/ssh/channel.go:251-408 | in every run, failed writes included: what has been read of a stream is, in order, a prefix of what was written to it and not reported as unwritten |
| FlowControl.DrainedHasCredit | third/ssh/channel.go:335-384 | a drained and credited receiver advertises at least channelWindowSize - 3*channelMaxPacket |
| FlowControl.NoStarvation | third/ssh/common.go:668-717 | once nothing is in flight a waiting writer finds window |
| FlowControl.Complete | third/ssh/channel.go:251-408 | when all is sent and drained, everything reported as written has been read |
| FlowControl.EofIsComplete | third/ssh/channel.go:602-620 | when no call for the stream was in progress at CloseWrite, a reader that sees the end has read all that was sent, which is all that was written but for a call on a closed channel |
| FlowControl.EofIsFinal | third/ssh/buffer.go:55-97 | and nothing arrives on the stream afterwards |
| FlowControl.EofTooEarly | third/ssh/channel.go:251-303 | a run in which CloseWrite overtakes a call in progress: the reader sees the end before a byte that then arrives |
| Handshake.HandshakeTransport.Write | third/ssh/handshake.go:579-635 | writePacket: reject, fail, queue, wait or send, with the budgets charged |
| Handshake.HandshakeTransport.Resume | third/ssh/handshake.go:608-633 | a woken writer fails, waits on, or sends |
| Handshake.HandshakeTransport.Init | third/ssh/handshake.go:489-575 | a second KEXINIT is never sent in one exchange |
| Handshake.HandshakeTransport.Finish | third/ssh/handshake.go:347-388 | the push loop after an exchange, including the error it overwrites |
| Handshake.InvKept | third/ssh/handshake.go:304-401 | every step of callers and key-exchange loop keeps the ordering invariant |
| Handshake.OrderedWrites | third/ssh/handshake.go:304-635 | in every run: only kex messages between KEXINIT and NEWKEYS, at most 64 packets queued, and wire plus queue is exactly the accepted packets in order |
| Handshake.RekeyRequested | third/ssh/handshake.go:617-629 | in every run a new exchange is requested or begun once one key has carried more than 2^31 direct packets, or a packet beyond its byte limit |
| Handshake.FailedExchange | third/ssh/handshake.go:347-388 | after an exchange that failed at any point, with any push failing too: the wire stays well formed exactly when NEWKEYS was out, nothing was queued or the first push failed; the failure is remembered exactly when nothing was queued or a push failed; the wire holds a prefix of the accepted packets |
| Handshake.FailureExample | third/ssh/handshake.go:347-388 | a concrete run with one queued packet in which both go wrong |
| Negotiate.FindCommon | third/ssh/common.go:390-409 | the first client preference that the server lists, or an error when there is none |
| Negotiate.AgreedAreFavourites | third/ssh/common.go:455-508 | every agreed name is the client's first choice that the server lists; a MAC is negotiated exactly for ciphers that need one |
| Negotiate.Mirrored | third/ssh/common.go:455-508 | both ends agree or fail together on the same list, and one writes with what the other reads with |
| Negotiate.MarkersAreNotChosen | third/ssh/handshake.go:485-560 | the ext-info and strict-mode markers are never picked as key exchange |
| Negotiate.StrictAgreed | third/ssh/handshake.go:533-554 | both ends of this library turn strict mode on |
| KeyMaterial.GenerateKeyMaterial | third/ssh/transport.go:301-326 | the whole buffer holds the first bytes of the digest chain |
| KeyMaterial.MaterialPrefix | third/ssh/transport.go:301-326 | shorter material is a prefix of longer material from the same exchange |
| Transport.ConnectionState.ReadPacket | third/ssh/transport.go:156-196 | number, cipher switch, strict reset, and each error case |
| Transport.ConnectionState.WritePacket | third/ssh/transport.go:211-234 | the same transition on the writing side, nothing on a failed flush, and the panic exactly on NEWKEYS without key material |
| Transport.RulesAgree | third/ssh/transport.go:156-234 | counting with and without strict mode gives the same number exactly when the packets up to the last NEWKEYS fill whole turns of the 32-bit counter |
| Lockstep.StepKeeps | third/ssh/handshake.go:650-772 | every action of an endpoint keeps phase, ciphers, numbers and slots in line with both logs |
| Lockstep.InLockstep | third/ssh/transport.go:79-234 | with agreement on strict mode, in every run: no fault, the next packet is expected with the cipher, algorithms and number it was written with, and slots are empty when an exchange starts |
| Lockstep.OutOfStep | third/ssh/transport.go:79-234 | in every run, agreement or not: the next packet is expected with its cipher; its number is the expected one exactly when the ends agree or the rules do; receiving it fails exactly when they do not and its cipher uses the number |
| Lockstep.RulesDifferAfterFirst | third/ssh/transport.go:156-234 | from the first NEWKEYS of a direction to its second the two rules never give the same number |
| Lockstep.GcmNeverFails | third/ssh/cipher.go:353-437 | with AES-GCM in every exchange no run goes wrong, whatever the ends think of strict mode |
| Lockstep.LibraryAgrees | third/ssh/handshake.go:685-692 | KEXINIT messages of this library always agree on strict mode |
| ServerAuth.PubKeyCache.Get | third/ssh/server.go:320-327 | the first entry for that user and key |
| ServerAuth.PubKeyCache.Add | third/ssh/server.go:330-335 | first in first out with room for one |
| ServerAuth.Lookup | third/ssh/server.go:320-327 | found exactly when an entry has that user and key, and then it is that entry's verdict |
| ServerAuth.ServerAuthenticate | third/ssh/server.go:700-1109 | the loop with its counters, cache object and stages equals the specification on every list of requests |
| ServerAuth.CacheTransparent | third/ssh/server.go:296-335 | with a deterministic callback the outcome is the same without the cache |
| ServerAuth.AttemptBound | third/ssh/server.go:691-752 | at most 128 requests are handled and later ones are never looked at |
| ServerAuth.FailureBound | third/ssh/server.go:726-1085 | at most MaxAuthTries + 1 plain failures |
| ServerAuth.UserFixed | third/ssh/server.go:766-771 | after a partial success every request and the final success are for the same user |
| ServerAuth.SuccessJustified | third/ssh/server.go:781-1027 | every success is entitled by the request that brought it, in the stage in force: the configured callback accepted it with these permissions; a key success has the callback's verdict on that user and key and a verified signature of that payload; none only before any partial success |
| AgentPipeline.InvKept | third/ssh/agent/client.go:965-1079 | every step of callers, reader and shutdown keeps mutual exclusion, queue order and the shutdown sequence |
| AgentPipeline.NoFaults | third/ssh/agent/client.go:977-1079 | nothing is sent on the closed pending channel, no channel is closed or sent to twice, and a reader with a reply finds a channel |
| AgentPipeline.OwnReply | third/ssh/agent/client.go:1034-1079 | a call returns the reply to its own request, or an error that is not nil |
| AgentPipeline.SentOnce | third/ssh/agent/client.go:928-936 | what was sent on a reply channel stays for the rest of the run |
| AgentPipeline.AllServed | third/ssh/agent/client.go:1008-1031 | when the reader has finished every enqueued channel was sent to and no caller is left waiting |
| AgentPipeline.ShutdownProgress | third/ssh/agent/client.go:1008-1079 | shutdown waits only for a conn.Write in progress: otherwise a step without I/O is enabled and brings its end nearer, and so does the return of that write |
| ShellInput.FindCommandSeparator | modules/fakeshell/input.go:35-93 | the loop with its look-ahead finds the automaton's first boundary |
| ShellInput.SeparatorIsFirst | modules/fakeshell/input.go:28-34 | the separator is the first position where a newline, or a semicolon outside quotes, escapes and comments, is met |
| ShellInput.SeparatorStable | modules/fakeshell/input.go:35-93 | more input never moves a separator that was found |
| ShellWords.ScanSyntaxWord | modules/fakeshell/syntax.go:360-412 | the word loop and its quote loops agree with the separator scan's automaton, segment by segment |
| ShellTokens.TokenizeShellSegment | modules/fakeshell/syntax.go:135-256 | the token loop with its limits equals the specification, and yields at most 128 tokens |
| ShellTokens.ScannersAgree | modules/fakeshell/syntax.go:135-256 | wherever the tokenizer looks for a token the separator scan is outside quotes, and comments start for both or for neither |
| ShellTokens.CommentsAgree | modules/fakeshell/syntax.go:135-168 | where the separator scan starts a comment, the tokenizer stops too, unless it reported an error before |
| ShellTokens.NoStraySeparator | modules/fakeshell/syntax.go:162-168 | without a boundary in the input the tokenizer never reports an unexpected separator |
| ShellTokens.CutSegmentsTokenize | modules/fakeshell/syntax.go:135-168 | no segment the shell cuts off makes the tokenizer report one |
| ShellParse.ParseSimpleCommandTokens | modules/fakeshell/syntax.go:282-331 | the command loop and its redirection limit equal the specification and stop at the next operator |
| ShellParse.ParseShellLine | modules/fakeshell/syntax.go:91-122 | the line loop over pipelines equals the specification, errors and limits included |
| ShellParse.CommandMeaning | modules/fakeshell/syntax.go:282-358 | a command is accepted exactly when its tokens, position by position, have at most eight complete redirections, literal leading assignments, and a name or assignment beside redirections; its value is their assignments, words and redirections in order; a limit is reported exactly on a ninth redirection after complete ones |
| ShellParse.ParseAccepts | modules/fakeshell/syntax.go:91-331 | exactly the empty line and such commands with one operator between neighbours are accepted, and a limit is reported exactly when it is the first thing wrong |
| ShellParse.ParseKeepsStructure | modules/fakeshell/syntax.go:91-358 | the parsed line has the commands and operators of its tokens in order, each command with its assignments, words and redirections |
| ShellParse.StatusMeaning | modules/fakeshell/syntax.go:91-134 | a segment is over a limit exactly when the tokenizer reports one or a command hits the redirection limit first, and parses exactly when its tokens are well formed |
| ShellLoop.ConsumePhysicalLine | modules/fakeshell/fakeshell.go:227-234 | up to and including the first newline, or everything |
| ShellLoop.Session.ProcessBufferedInput | modules/fakeshell/fakeshell.go:172-225 | a step keeps the session on its way to the batch result, and a processed step consumes at least one byte |
| ShellLoop.Session.ReadInput | modules/fakeshell/fakeshell.go:390-411 | reading loses nothing, makes progress and moves no more than the read brings; the end is reported exactly when all has been read and the channel says so; it refuses a segment that does not fit, and otherwise only an overlong line that is being dropped and came in one large read |
| ShellLoop.SoFarAppend | modules/fakeshell/fakeshell.go:92-225 | splitting what arrived first and going on with the rest is splitting it all |
| ShellLoop.LimitedIsBatch | modules/fakeshell/fakeshell.go:390-411 | the line limit only cuts a session short: the outcome is that of the splitter without it exactly when it is not TooLong |
| ShellLoop.LinesFitAll | modules/fakeshell/fakeshell.go:390-411 | when every line fits, the limit changes nothing |
| ShellLoop.RunLoop | modules/fakeshell/fakeshell.go:92-170 | for every chunking that delivers the input the segments executed and the way the session ends, an overlong segment included, are those of the splitter with the line limit, provided no read brings more than a line or no dropped line is overlong; every outcome has its reason: all of the input after its end, and before that exactly the segments complete in the bytes that had arrived, which are no more than the reads brought |
| ShellPath.ResolvedIsCanonical | modules/fakeshell/cmds/path.go:59-95 | results are absolute with proper names between single slashes |
| ShellPath.ResolveTwice | modules/fakeshell/cmds/path.go:59-126 | resolving again gives the same path exactly when the argument is absolute or the working directory has only valid characters, and is refused otherwise |
| ShellPath.BadWorkingDirectory | modules/fakeshell/cmds/path.go:52-58 | every path resolved relative to a working directory with a bad character is refused the second time |
| Redirection.DynamicStore.Record | modules/fakeshell/cmds/dynamic.go:107-150 | order lists the keys once each and never more than 256; errors change nothing |
| Redirection.DynamicStore.List | modules/fakeshell/cmds/dynamic.go:155-164 | all entries in insertion order |
| Redirection.ValidatedIsRecordable | modules/fakeshell/syntax_expand.go:552-575 | the store accepts a validated target exactly when its characters are valid |
| Redirection.Preflight | modules/fakeshell/syntax_expand.go:474-524 | succeeds exactly when every redirection is valid and all targets fit the store together, and otherwise reports the first error |
| Redirection.Reserve | modules/fakeshell/syntax_expand.go:407-424 | after a successful preflight exactly the targets before the first one with a bad character become empty files, appended in that order, so all of them when there is none |
| Redirection.WireUp | modules/fakeshell/syntax_expand.go:426-451 | descriptors are wired in order, failing exactly on a descriptor other than 1 and 2 |
| Redirection.LastOutputWins | modules/fakeshell/syntax_expand.go:432-447 | standard output goes to the last file it is redirected to |
| Redirection.DuplicateFollowsOutput | modules/fakeshell/syntax_expand.go:423-430 | 2>&1 follows output as it is at that moment, not later |
| Redirection.ApplyFakeRedirections | modules/fakeshell/syntax_expand.go:388-452 | for any working directory: nothing changes if the preflight fails; after it all targets are reserved, new ones appended in order, exactly when none is relative to a working directory with a bad character, and otherwise exactly those before the first such one; the only later error is a bad descriptor |
| Redirection.TornReservation | modules/fakeshell/syntax_expand.go:388-424 | with PWD=/a:b the redirections to /x and . pass the preflight, and the call fails with /x reserved |
| Redirection.ParsedIsWireable | modules/fakeshell/syntax.go:333-358 | parsed redirections never have such a descriptor |
| Redirection.Cleanup | modules/fakeshell/syntax_expand.go:453-471 | no Record fails, however full the store is, and each target gets the largest count |
| Redirection.CleanupReady | modules/fakeshell/syntax_expand.go:464-470 | reserved paths stay recordable whatever the command records |
| GitCommand.NormalizeFixed | modules/gitserver/path.go:36-83 | exactly the paths of valid segments between single slashes normalize to themselves |
| GitCommand.NormalizedResult | modules/gitserver/path.go:36-83 | every result is such a path |
| GitCommand.NormalizedChars | modules/gitserver/path.go:10-14 | every character of a result is a slash or from the segment alphabet, so no quote, space or metacharacter |
| GitCommand.Tokenize | modules/gitserver/request.go:97-168 | the loop over quotes and spaces equals the specification |
| GitCommand.TokenizeQuoted | modules/gitserver/request.go:97-168 | any tokens without control characters and single quotes, put in single quotes with blanks between them, come back |
| GitCommand.ParsePrinted | modules/gitserver/backend_ssh.go:37-54 | parsing what was printed gives the same command and the normalized backend path |
| GitCommand.PrintParsed | modules/gitserver/request.go:198-251 | every parsed request is printable and comes back |
| GitCommand.Authorize | modules/gitserver/request.go:271-309 | succeeds exactly for a git key with read or write access to the normalized repository |
| GitLifecycle.ReapedOnceAndLast | modules/gitserver/backend_local_lifecycle.go:22-68 | on every interleaving the child is reaped once, after the observer was joined, and nothing follows the reap |
| GitLifecycle.OutputComplete | modules/gitserver/backend_local_lifecycle.go:43-113 | each result is justified: both outputs received, or the context cancelled and the group signalled |
| GitLifecycle.OnlyWaits | modules/gitserver/backend_local_lifecycle.go:22-113 | the wait blocks only for the exit, the output, or a group it has signalled |
| GitSession.SessionSafety | modules/gitserver/server.go:115-333 | at most one backend start, only by an exec request received earlier in the run whose command is authorized, with the protocol accepted before it; one channel close; at most one exit status, with the backend's result |
| GitSession.StartedMeansAllowed | modules/gitserver/server.go:192-212 | an authorized request is for a configured repository and a key with access |
| GitSession.QuietAfterReturn | modules/gitserver/server.go:244-333 | after the session returned nothing is started, reported or closed again |

## Left out

- Channel open and close negotiation, request replies and the mux: message passing around the modelled core.
- Real cryptography (block ciphers, ChaCha20, hashes, signatures, key exchange mathematics, key parsing): uninterpreted functions with the laws the framing needs.
- `FirstKexFollows` guessed packets, the OpenSSH-style error replies of `transport.go`, DEBUG and IGNORE filtering: not part of `Transport.dfy`.
- Transport write failures in the middle of a run: `Handshake.OrderedWrites` speaks of runs in which exchanges succeed and pushes do not fail; the failing exchange has its own exact result.
- AgentPipeline.OwnReply: assumes an agent that answers in request order and that a failed write delivers nothing more.
- AgentPipeline.ShutdownProgress: says which step is enabled, not that the scheduler takes it.
- FlowControl.ReadsArePrefix: takes a packet write that failed to have delivered nothing.
- Banners, log callbacks, and transport write failures of `serverAuthenticate`.
- Lockstep.OutOfStep: takes a cipher that uses the sequence number to reject every other number; `Cipher.StreamOtherNumber` has the exact condition on the MAC.
- Lockstep.RulesDifferAfterFirst: takes key-exchange methods of fewer than 2^32 - 2 messages; the ones of the library have two or four.
- Cipher.StreamRoundTrip: padding bytes are an input, random in the source.
- Channel.Window.Reserve: models the call after its wait has ended; the waiting itself is a disabled step in `FlowControl`.
- Command execution: `ShellLoop` takes it, and the parse status of `ShellParse.StatusOf`, as functions of the segments.
- Prompts and context cancellation of the shell loop, and its log records.
- Word expansion, globbing and the evaluation of environment assignments of `syntax_expand.go`.
- Previews, hashes and timestamps of dynamic entries, and a missing dynamic store.
- Invalid UTF-8 in Git commands: `GitCommand` works on decoded characters.
- Local repository resolution, the SSH backend connection and process creation.
- Configuration, rate limiting, logging, recon commands and archive loading.
