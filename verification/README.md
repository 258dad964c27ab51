# blank-chat: a verified model of its protocol core

This Dafny project models the parts of blank-chat that decide whether two people stay connected: the
rotation of keys and mailboxes between two clients over a relay that stores opaque frames, the frame
codec and the connections that carry it, and the codecs and two measuring algorithms around them.
`dafny verify dfyconfig.toml` checks everything.

## How it is organised

**Rotation protocol.** `Crypto` has symbolic keys, mailboxes and signatures; `ClientCore` the client's
handlers as functions on values, and `Intake` what they make of any frame, honest or not; `Repl` the client's objects (contacts, address book, conversation
cache, command loop), each method proved against `ClientCore`. `LossyMail` is an abstract machine: two
clients and one queue per mailbox from which frames are delivered in order or lost. `Relay` is the
concrete one: outboxes, connections in both directions, the broker with its quota and the polls;
`Relay.StepRefines` shows that each of its steps is a move of the abstract machine. A run is any sequence
of steps; a step that is not possible does nothing. The results about whole runs, from the static bootstrap
keys on, are in `Theorems` (agreement, binding, retired mailboxes), `Exactness` and `Settings` (when two
clients agree, and under which settings they can part), `Counters` (what the message counter counts, and when
it starts a rotation), `Resolution` and `Overflow` (when a rotation can
come to an end), `Marks` and `Repeats` (which sent texts are marked delivered) and `Delivery` (order and
loss of frames). They rest on invariants in `Rotation`, `Receipts`, `Retired`, `Crossings`, `Collision`,
`Lines` and `Stalls`, and on runs put together in `Passage`, `Chat`, `Divergence`, `Carriage` and
`Progress`. `Polling` ties the polls of the command loop to those of runs.

A *crossing* is a step in which a client answers a rotation request while its own is outstanding. Only
the initial handshake has a tie-break, so crossings happen when both clients start a periodic rotation in
the same epoch. `Exactness.AgreementExactly` says what they cost: whenever both clients are idle, they
agree on keys and mailboxes if and only if the run had no crossing, and after a crossing neither ever
reaches the other again. `Settings.SplitPossibleIff` says when such runs exist: exactly when the relay
accepts mail and both clients have key rotation switched on.

A client that has asked for a rotation waits for the answer. A frame refused at the quota is not sent again,
so the wait can be endless; `Resolution.ResolvesIff` says exactly when it is.

**Wire layer.** `Wire` has frames, serialisation and a one-shot decoder as the reference; `FrameParser`
the incremental parser; `Broker` the store of queues; `Session` the relay's side of a connection;
`TcpClient` the client's side; `Handshake` the two put together.

**Codecs.** `Padding` (whole cells), `PayloadFormatter` (opcodes), `Bits`, `Words` and `Bip39` (key
mnemonics).

**Measuring.** `KolmogorovSmirnov` (the statistic of benchmark BT-04), `ClockCorrection` and `AckGating`
(the acceptance of runs in benchmark BT-06).

## Model

| member | source | states |
|---|---|---|
| `Exactness.AgreementExactly` | libs/cli/src/repl.cpp:377-584 | In every run from the bootstrap that ends with both clients idle, each sends to the mailbox the other reads under the key the other keeps for it, if and only if no client ever answered a rotation request with its own outstanding; after such an answer no continuation lets either reach the other again. |
| `Theorems.KeyAgreement` | libs/cli/src/repl.cpp:377-584 | In every run without crossings, frame losses at the quota included, two idle clients agree on both mailboxes and keys and on whether the initial handshake is done. |
| `Divergence.AgreementNeedsNoCrossings` | libs/cli/src/repl.cpp:394-402 | For all parties, every positive quota and all positive rotation intervals there is a run from the bootstrap after which both clients are idle and no continuation makes them agree; that run has a crossing. |
| `Settings.SplitPossibleIff` | libs/cli/src/repl.cpp:166-177 | Some run ends with both clients idle on keys that do not agree if and only if the quota and both rotation intervals are positive. |
| `Divergence.CrossingDivergesForGood` | libs/cli/src/repl.cpp:437-483 | From every state with all mail polled and both clients due to rotate, a run leads to permanent disagreement in both directions. |
| `Resolution.ResolvesIff` | libs/cli/src/repl.cpp:502-584 | After every run without crossings, a client that waits for a rotation answer becomes idle in some continuation if and only if the quota is positive and what it depends on is in transit: the answer, or its request in a mailbox the other listens on, or its request and also the answer after which the other will listen there. |
| `Resolution.InitialStallIsFinal` | libs/cli/src/repl.cpp:144-153 | A client waiting for the initial handshake with nothing of that in transit, or at a relay without quota, refuses every text in every continuation. |
| `Overflow.OverflowStalls` | libs/domain/server/src/message_broker.cpp:13-23 | Whenever the quota is positive and at most a client's rotation interval, there is a run after which that client waits for a rotation answer in every continuation. |
| `Stalls.MoveKeepsStuck` | libs/cli/src/repl.cpp:97-689 | No move, crossings included, frees a client whose request and answer are gone, or whose request waits where the other cannot come to listen. |
| `Carriage.BringToDoor` | libs/cli/src/repl.cpp:278-306 | From every state of a run with a positive quota, ticks and polls alone bring all mail of a polled mailbox to its reader, losing nothing of it nor of the mailbox its sender uses now. |
| `Lines.StepKeepsLines` | libs/cli/src/repl.cpp:278-306 | Every step keeps the frames a client sends to its current mailbox behind its other frames, its polls and what it was answered on mailboxes of keys in use, and the mailboxes of a pending key empty. |
| `Chat.HandshakeRun` | libs/cli/src/repl.cpp:691-712 | For all parties and every positive quota, a run from the bootstrap completes the initial handshake and leaves both clients idle on common keys. |
| `Chat.ChatRun` | libs/cli/src/repl.cpp:345-375 | From there on a text that is not due to rotate can be sent, logged by the peer, and marked delivered. |
| `Theorems.NeverAbandoned` | libs/cli/src/repl.cpp:288-296 | In runs without crossings, after both initial handshakes, the mailbox a client sends to is one the other polls now, current or retained, or the one the awaited rotation answer makes it adopt. |
| `Theorems.OneEpochApart` | libs/cli/src/repl.cpp:437-483 | In runs without crossings the numbers of key changes of the two clients differ by at most one, and the client behind is waiting for a rotation answer. |
| `Theorems.InitiatorLosesNothing` | libs/cli/src/repl.cpp:564-575 | When a client accepts the answer to its rotation request, then and in every continuation no frame for the mailbox it abandons is left in the peer's outbox, on a connection or at the relay. |
| `Theorems.BindingAlways` | libs/cli/src/repl.cpp:308-337 | In every run, crossings included, mailbox ids and keys of a contact come from one derivation, every frame anywhere is sealed under the key of its mailbox, and no delivery reports a frame as malformed, unexpected or badly signed. |
| `Theorems.BootstrapCarriesHandshakeOnly` | libs/cli/src/repl.cpp:144-153 | In every run the only frames under bootstrap keys are the request of the party with the smaller key and the other side's answer. |
| `Theorems.CounterBounded` | libs/cli/src/repl.cpp:166-177 | In every run an idle client's message counter stays within its rotation interval. |
| `Counters.CounterCountsTexts` | libs/cli/src/repl.cpp:165-177 | In every run, crossings included, a client's counter is the number of texts it has sent since it last changed keys or started a rotation, modulo 2^32, and that number itself while an idle client has rotation switched on. |
| `Counters.RotatesIff` | libs/cli/src/repl.cpp:166-177 | In every run, an idle client past the initial handshake starts a rotation with its next text if and only if rotation is switched on and it has sent as many texts as its interval since its last key change. |
| `Intake.KeysChangeIff` | libs/cli/src/repl.cpp:377-584 | For any client state and any frame whatever: keys and mailboxes change exactly for a request signed by the contact, and answerable, or for the answer signed over the pending key; to those of a fresh key or of the pending one; both set the counter to zero and complete the initial handshake. |
| `Intake.LogChangesIff` | libs/cli/src/repl.cpp:345-375 | The history grows exactly by a text that opens under the key of its mailbox after the initial handshake, and one entry is marked exactly by a receipt that does; no other frame touches it. |
| `Intake.RepliesIff` | libs/cli/src/repl.cpp:404-435 | Exactly such a request is answered, signed over both keys, and exactly such a text gets a receipt, each under the keys in use when the frame arrived; the initiating side answers a premature request with its own. |
| `Intake.RetainedIff` | libs/cli/src/repl.cpp:599-605 | A periodic rotation retains the mailbox and key it leaves, and exactly a push that opens on another mailbox retires them. |
| `Intake.BadSignatureIsNamed` | libs/cli/src/repl.cpp:385-390 | A rotation frame with any other signature is reported as such, unanswered and without effect on keys, counter or history. |
| `Intake.SendsIff` | libs/cli/src/repl.cpp:129-196 | A text is logged and sent exactly after the initial handshake, behind a signed request exactly when a rotation is due; before it the text leaves no trace. |
| `Intake.ConnectsIff` | libs/cli/src/repl.cpp:691-703 | Connecting sends a request exactly on the side with the smaller key when the initial handshake is open, and otherwise only sets the flag. |
| `Intake.InitiatorIsSmaller` | libs/cli/src/repl.cpp:714-720 | The initiator is the party whose key has the smaller byte at the first difference. |
| `Theorems.ReceiptsSound` | libs/cli/src/repl.cpp:640-641 | In every run a sent text is marked delivered only if the peer's history holds it as received; a text whose id occurs earlier in the history stays pending. |
| `Marks.DeliveredExactly` | libs/cli/src/repl.cpp:627-645 | In every run a sent text is marked delivered if and only if no earlier entry of the history has its id and a receipt for that id has been handled; otherwise it is pending. |
| `Repeats.RepeatsStayPending` | libs/domain/client/src/conversation_cache.cpp:132-170 | In every continuation of every run, a text sent after an entry with its id stays as it is, pending. |
| `Repeats.EchoNeverDelivered` | libs/domain/client/src/conversation_cache.cpp:132-170 | For all parties, every positive quota and every text there is a run in which a client receives the text, sends it back, the peer logs it and the client handles the receipt, with the client's entry pending then and in every continuation. |
| `Delivery.DeliversInOrder` | libs/domain/server/src/message_broker.cpp:13-42 | Per mailbox, over every run, what was sent is what was received, lost at the quota or still on its way; what was received followed by what is on its way is a subsequence of what was sent, and all of it when nothing was lost. |
| `Relay.StepRefines` | libs/cli/src/repl.cpp:278-337 | Every step of outboxes, connections, broker and polls is a move of the lossy-mail machine and keeps the base invariant and the addressing of all pipes. |
| `LossyMail.MoveKeepsBase` | libs/cli/src/repl.cpp:97-689 | Every move keeps the base invariant: id and key bindings, pending keys exactly while a request is out, at most one handshake frame per request. |
| `LossyMail.DeliverKeepsBase` | libs/cli/src/repl.cpp:586-645 | Handling any frame keeps the base invariant and rejects no honest frame. |
| `Rotation.MoveKeepsPhase` | libs/cli/src/repl.cpp:377-584 | Every move that is no crossing keeps the two ends on common keys, or one of them waiting for an answer the other has given. |
| `Rotation.DeliverMovesPhase` | libs/cli/src/repl.cpp:502-584 | A delivery moves the phase as its notice says; a completed rotation found the answer as last frame in the mailbox given up. |
| `Rotation.AnswerMovesPhase` | libs/cli/src/repl.cpp:404-500 | Answering a request between synced ends leaves the asker waiting, with the answer as the only handshake frame and the responder keeping the asker's mailbox as its old one. |
| `Rotation.CompleteMovesPhase` | libs/cli/src/repl.cpp:512-584 | Accepting the answer brings both ends onto common keys. |
| `Collision.CrossingCollides` | libs/cli/src/repl.cpp:392-443 | Answering with one's own request outstanding puts the system in one of five states, described by keys and handshake frames, that never lead back. |
| `Collision.MoveKeepsCollided` | libs/cli/src/repl.cpp:97-689 | No move leaves those five states. |
| `Collision.IdleHaveParted` | libs/cli/src/repl.cpp:437-483 | Two idle clients after a collision listen on nothing the other sends to. |
| `Crossings.MoveKeepsSplit` | libs/cli/src/repl.cpp:97-689 | No move mends a split in which neither side listens where the other sends. |
| `Retired.CompletionRetires` | libs/cli/src/repl.cpp:564-575 | The mailbox given up on completing a rotation is dead: empty, and nobody sends to it. |
| `Retired.StepKeepsDead` | libs/cli/src/repl.cpp:425-435 | A dead mailbox stays dead through every step. |
| `Receipts.MoveKeepsReceipts` | libs/cli/src/repl.cpp:345-375 | Every move keeps delivered marks true and receipts on their way backed by a received text. |
| `Crypto.Derive` | libs/crypto/src/mailbox_derivation.cpp:41-63 | The outgoing id and key are the two parts of one digest, the incoming ones of another, and each end's outgoing digest is the other's incoming one. |
| `Repl.BootstrapPaired` | libs/crypto/src/mailbox_derivation.cpp:13-66 | Two fresh contacts of each other are paired, and their two directions differ. |
| `Common.LexLessTrichotomy` | libs/cli/src/repl.cpp:714-720 | Of two distinct identities exactly one is the initiator of the initial handshake. |
| `Common.LexLessIff` | libs/cli/src/repl.cpp:718-719 | The lexicographic order is decided at the first difference, a proper prefix coming first. |
| `ClientCore.UpdatesFirstOnly` | libs/domain/client/src/conversation_cache.cpp:132-170 | A status update changes the status of the first entry with the id and nothing else. |
| `Repl.AddressBook.AddContact` | libs/domain/client/src/address_book.cpp:86-114 | Adding or replacing a contact starts it from the static keys and leaves all others. |
| `Repl.AddressBook.GetAllAliases` | libs/domain/client/src/address_book.cpp:124-132 | Every alias once. |
| `Repl.AddressBook.GetAliasByRxMailboxId` | libs/domain/client/src/address_book.cpp:134-145 | Finds a contact listening on a mailbox, current or retained, exactly when there is one. |
| `Repl.ConversationCache.Append` | libs/domain/client/src/conversation_cache.cpp:115-130 | Appends to one history and leaves the others. |
| `Repl.ConversationCache.UpdateMessageStatus` | libs/domain/client/src/conversation_cache.cpp:132-170 | The search loop performs the update of the first matching entry. |
| `Repl.Client.InitiatePfsRotation` | libs/cli/src/repl.cpp:647-689 | Starts a rotation exactly when idle: new pending key, counter reset, signed request queued under the current keys. |
| `Repl.Client.StartInitialPfs` | libs/cli/src/repl.cpp:691-703 | Starts the initial handshake only when connected, not done, idle and the deterministic initiator. |
| `Repl.Client.HandleConnect` | libs/cli/src/repl.cpp:97-127 | On success takes the whole address book as poll list, greets exactly the contacts whose handshake is due, and queues exactly their requests, in order; on failure changes nothing. |
| `Repl.Client.HandleSend` | libs/cli/src/repl.cpp:129-196 | Unknown alias: nothing. No session: nothing of the text is sent or logged. Otherwise logs, perhaps rotates, counts modulo 2^32 and queues, as the value-level handler does. |
| `Repl.Client.CollectActive` | libs/cli/src/repl.cpp:286-296 | The polled mailboxes, alias by alias, are exactly those on which a listed contact listens, as its current or its retained one. |
| `Repl.Client.GetNextFrameForCBR` | libs/cli/src/repl.cpp:278-306 | Sends the oldest frame of the outbox, or with an empty outbox polls, in cyclic order, a mailbox some contact listens on, or the dummy id exactly when there is none. |
| `Repl.Client.ActiveIff` | libs/cli/src/repl.cpp:286-296 | A mailbox is active if and only if some listed contact listens on it. |
| `Repl.Client.HeardIsPolled` | libs/cli/src/repl.cpp:286-306 | Every mailbox a contact listens on is among any n polls in a row, n being the number of active mailboxes, whatever is queued in between. |
| `Polling.SamePolls` | libs/cli/src/repl.cpp:288-296 | For one contact, the mailboxes the command loop polls are those a tick of the whole-run model may poll. |
| `Repl.Client.RunTimer` | libs/cli/src/repl.cpp:278-306 | Over any course of ticks and newly queued frames, sends and keeps exactly what the following three properties are about. |
| `Repl.PollsVisitAll` | libs/cli/src/repl.cpp:298-306 | While the n active mailboxes are unchanged, any n polls in a row visit each of them once, however many outbox ticks and queued frames lie between them. |
| `Repl.PollsFollowOn` | libs/cli/src/repl.cpp:298-306 | The polls among the ticks are those of a timer without any outbox. |
| `Repl.OutboxIsFifo` | libs/cli/src/repl.cpp:282-286 | The outbox frames among the ticks, followed by what is left, are the frames queued, in order. |
| `Repl.OutboxGoesFirst` | libs/cli/src/repl.cpp:282-305 | Every tick sends one frame, and polls begin only when the outbox is empty. |
| `Repl.Client.HandleTextMessage` | libs/cli/src/repl.cpp:345-375 | Logs the text as received and queues its receipt to the sender. |
| `Repl.Client.HandlePfsRotateRequest` | libs/cli/src/repl.cpp:377-500 | Checks the signature, breaks the initial tie, answers under the old keys, keeps the old mailbox unless initial, adopts the new keys. |
| `Repl.Client.HandlePfsRotateAck` | libs/cli/src/repl.cpp:502-584 | Accepts an answer only to its own outstanding request and with the peer's signature over both keys. |
| `Repl.Client.ProcessPushFrame` | libs/cli/src/repl.cpp:586-625 | Opens under the key of the mailbox used, retires the old mailbox on the first push on the new one, dispatches by opcode. |
| `Repl.Client.ProcessAckFrame` | libs/cli/src/repl.cpp:627-645 | An ACK that opens is reported as a delivery; it marks the first entry with the id it holds and changes nothing else, whatever its plaintext. |
| `Repl.Client.OnFrameReceived` | libs/cli/src/repl.cpp:308-337 | A frame changes the contact that listens on its mailbox as the value-level handler says, and no other; unknown mailboxes change nothing. |
| `Broker.RefinesFifo` | libs/domain/server/src/message_broker.cpp:13-42 | Over every sequence of pushes and polls each mailbox behaves as a bounded queue of its own. |
| `Broker.Conserves` | libs/domain/server/src/message_broker.cpp:13-42 | Frames queued and accepted for a mailbox are exactly those handed out followed by those still queued. |
| `Broker.RunKeepsSound` | libs/domain/server/src/message_broker.cpp:13-42 | Queues stay within the quota, hold only frames of their mailbox, and are never stored empty under a positive quota. |
| `Broker.ZeroQuotaStoresEmpty` | libs/domain/server/src/message_broker.cpp:13-23 | A first push leaves an empty queue stored exactly when the quota is zero. |
| `Broker.MessageBroker.ProcessPush` | libs/domain/server/src/message_broker.cpp:13-23 | Appends to the frame's mailbox if it has room, otherwise drops the frame. |
| `Broker.MessageBroker.ProcessPoll` | libs/domain/server/src/message_broker.cpp:25-42 | Takes the oldest frame of the mailbox; an emptied queue is erased. |
| `Wire.SerializeFrame` | libs/protocol/src/frame.cpp:24-48 | The buffer filled byte by byte holds action, mailbox, the low 32 bits of the length in little-endian order, and the payload unless those bits are zero; `Serialize` is read back by the reference decoder. |
| `Wire.SerializedLayout` | libs/protocol/src/frame.cpp:24-48 | Byte 0 is the action code, bytes 1 to 16 the mailbox, bytes 17 to 20 the low 32 bits of the length, least significant first, and the payload follows unless those bits are zero. |
| `Wire.ActionsOnTheWire` | libs/protocol/include/protocol/protocol_types.h:22-28 | The five codes are 1 to 5 in the order push, poll, ack, challenge, response, and no other code names an action. |
| `Wire.RoundTrip` | libs/protocol/src/frame.cpp:9-48 | Any list of factory-built frames within 1 MiB decodes from its concatenated serialisations to itself with nothing left over. |
| `Wire.DecodeNormalises` | libs/protocol/src/frame_parser.cpp:46-115 | Serialising what any byte string decodes to and decoding again changes nothing. |
| `Wire.AcceptedIffWithinLimit` | libs/protocol/src/frame_parser.cpp:86-115 | A factory-built frame of any size is decoded from its serialisation to itself exactly when its payload is within the limit. |
| `Wire.MalformedIffBeyondLimit` | libs/protocol/src/frame_parser.cpp:100-108 | Below 4 GiB its serialisation is malformed exactly when the payload is over the limit. |
| `Wire.DecodeResumes` | libs/protocol/src/frame_parser.cpp:9-44 | Decoding a longer stream continues from the unused rest of a shorter one; an over-long length is final. |
| `FrameParser.Parser.FeedBytes` | libs/protocol/src/frame_parser.cpp:9-44 | Takes in a prefix of the data, stops only at a ready frame or an error, and always progresses while reading. |
| `FrameParser.Parser.ParseHeader` | libs/protocol/src/frame_parser.cpp:86-115 | A whole header determines action, mailbox, length and the next state. |
| `FrameParser.Parser.TryExtractFrame` | libs/protocol/src/frame_parser.cpp:46-79 | Hands out exactly what the reference decoder finds in the bytes taken in, unknown actions yielding nothing, and starts over. |
| `FrameParser.ReadStream` | libs/network/src/tcp_client.cpp:203-229 | However a stream is cut into chunks, the frames delivered are those of the one-shot decoder, all frames before a malformed header included; the branch for zero bytes consumed is unreachable. |
| `FrameParser.ReadChunk` | libs/network/src/tcp_session.cpp:48-80 | One chunk delivers the frames of the decoder on the kept bytes and the chunk, and keeps the decoder's rest. |
| `FrameParser.ReadRound` | libs/network/src/tcp_client.cpp:203-228 | One round of feeding and extracting consumes some bytes and resumes the decoder after the frames it hands out. |
| `Session.TcpSession.constructor` | libs/network/src/tcp_session.cpp:22-33 | A session starts unauthenticated with its challenge queued for writing. |
| `Session.TcpSession.OnRead` | libs/network/src/tcp_session.cpp:35-86 | On every input no push or poll reaches the broker unless the first frame proves the work; then exactly the calls of the later frames do, in order, and every poll is answered once, for its own mailbox, with what the broker hands out or an empty answer; the session closes only on malformed bytes or a failed proof. |
| `Session.TcpSession.ProcessExtractedFrame` | libs/network/src/tcp_session.cpp:125-149 | Handles exactly the frames that are ready, keeping every poll answered once, in order, for its own mailbox. |
| `Session.TcpSession.HandleAuthResponse` | libs/network/src/tcp_session.cpp:151-202 | Authenticates exactly on a response whose nonce proves the work; anything else closes the connection. |
| `Session.ParsedAuthIsWhole` | libs/network/src/tcp_session.cpp:165-170 | Every response or challenge that any bytes parse to has a payload of the required size, so the checks for short payloads never apply behind the parser. |
| `Session.ServedAsHandled` | libs/network/src/tcp_session.cpp:136-147 | Handling a frame does to the broker, and answers, exactly what the relay of whole runs does. |
| `Session.TcpSession.DoWrite` | libs/network/src/tcp_session.cpp:88-92 | Queues an answer behind all others. |
| `Session.TcpSession.OnWriteDone` | libs/network/src/tcp_session.cpp:94-123 | What was written is always a prefix of the challenge followed by the answers, one buffer per completed write. |
| `TcpClient.FindNonce` | libs/network/src/tcp_client.cpp:274-290 | The search stops at the first nonce, counting from one and wrapping at 2^64, whose little-endian bytes prove the work; it stops if and only if some eight bytes do. |
| `TcpClient.NoncesAreAll` | libs/network/src/tcp_client.cpp:276-278 | The nonces tried are all strings of eight bytes: each number below 2^64 in its own little-endian bytes. |
| `TcpClient.Client.DoCbrTick` | libs/network/src/tcp_client.cpp:171-186 | Silent before authentication, exactly one frame per tick after. |
| `TcpClient.Client.OnWriteDone` | libs/network/src/tcp_client.cpp:235-258 | A completed write removes the front buffer, with or without error. |
| `TcpClient.Client.HandleAuthChallenge` | libs/network/src/tcp_client.cpp:260-298 | A challenge of at least 32 bytes is answered with a nonce that proves its first 32, or searched for ever when there is none; a shorter one closes the client. |
| `TcpClient.Client.OnRead` | libs/network/src/tcp_client.cpp:188-233 | The receiver gets the decoder's frames without challenges and without anything before the first challenge, up to a challenge that no nonce answers; only there does the client search for ever, it closes only on malformed bytes, and queues nothing before its response. |
| `TcpClient.DeliveredIs` | libs/network/src/tcp_client.cpp:213-222 | What the receiver gets of a stream is all that follows the first challenge, in order, less the challenges. |
| `Handshake.ChallengeArrives` | libs/protocol/src/frame.cpp:81-88 | The 32-byte challenge survives padding, serialisation and parsing. |
| `Handshake.ResponseArrives` | libs/protocol/src/frame.cpp:90-97 | A response that proves the work still does after serialisation and parsing, whatever follows it. |
| `Handshake.Authenticate` | libs/network/src/tcp_client.cpp:260-298 | For every challenge on which some eight bytes prove the work and every cutting of the bytes, an honest client's first frame, a response whose first eight bytes do, authenticates it at the relay, and the broker's queues are as before. |
| `Padding.PadPlaintext` | libs/crypto/src/symmetric_cipher.cpp:20-36 | The padding loop appends the marker and zeros up to the fewest cells that fit. |
| `Padding.UnpadDecrypted` | libs/crypto/src/symmetric_cipher.cpp:73-85 | The reverse scan drops trailing zeros and one marker, or fails. |
| `Padding.UnpadExactly` | libs/crypto/src/symmetric_cipher.cpp:73-85 | Unpadding yields p exactly on p followed by the marker and any number of zeros, also when p ends like padding. |
| `Padding.PadRoundTrip` | libs/crypto/src/symmetric_cipher.cpp:20-36 | Unpadding undoes padding for every plaintext. |
| `Padding.Encrypt` | libs/crypto/src/symmetric_cipher.cpp:11-51 | Fails exactly on a key of the wrong size; otherwise decryption under the same key gives the plaintext. |
| `Padding.Decrypt` | libs/crypto/src/symmetric_cipher.cpp:53-88 | The checks, the opening and the scan compute the reference decryption; a wrong key size or a ciphertext shorter than nonce and tag fails. |
| `Padding.EncryptRoundTrip` | libs/crypto/src/symmetric_cipher.cpp:11-88 | With a correct cipher and a key of the right size, decryption undoes encryption. |
| `Padding.EncryptedFillsCells` | libs/crypto/src/symmetric_cipher.cpp:20-36 | Encrypted pushes and receipts of any size serialise to the least multiple of 498 bytes that holds them. |
| `Padding.ControlFillsCells` | libs/protocol/src/frame.cpp:14-17 | Polls and challenge responses serialise to exactly 498 bytes. |
| `Padding.DeliverableIffShort` | libs/protocol/src/frame_parser.cpp:100-108 | The relay's parser takes an encrypted plaintext of any size whole exactly when it has at most 1048228 bytes. |
| `Padding.TextDeliverableIffShort` | libs/domain/client/src/payload_formatter.cpp:11-21 | For texts, which carry an opcode, the limit is 1048227 bytes. |
| `Padding.LongTextCloses` | libs/protocol/src/frame_parser.cpp:100-108 | A longer plaintext below 4 GiB makes the bytes malformed, which closes the connection. |
| `PayloadFormatter.ParsedIffBuilt` | libs/domain/client/src/payload_formatter.cpp:11-126 | A payload is handled as a message exactly when it is that message's layout, keys and signatures having their fixed sizes. |
| `PayloadFormatter.BuiltLayout` | libs/domain/client/src/payload_formatter.cpp:11-54 | Opcode 1 and the text; opcodes 2 and 3 with 32 bytes of key and 64 of signature. |
| `Bip39.KeyOfMnemonic` | libs/crypto/src/bip39.cpp:19-115 | A text decodes to a key exactly when it is that key's mnemonic, for every sorted dash-free dictionary. |
| `Bip39.MnemonicIs` | libs/crypto/src/bip39.cpp:19-52 | A mnemonic is 24 dictionary words between dashes whose places are the base-2048 digits of the number that key and checksum write in base 256. |
| `Bip39.MnemonicInjective` | libs/crypto/src/bip39.cpp:19-52 | No two keys share a mnemonic. |
| `Bip39.Encode` | libs/crypto/src/bip39.cpp:19-52 | The 264-step shift loop writes the whole mnemonic; the buffer's capacity never cuts it. |
| `Bip39.Decode` | libs/crypto/src/bip39.cpp:54-115 | Splitting, binary search, bit packing and checksum return the key the text stands for, and nothing for every other text. |
| `Bip39.PackBits` | libs/crypto/src/bip39.cpp:87-96 | Or-ing 264 single bits into a zeroed array regroups 24 eleven-bit numbers into 33 bytes. |
| `Bip39.UnpackPack` | libs/crypto/src/bip39.cpp:34-48 | Regrouping into elevens and back gives the bytes. |
| `Bip39.PackUnpack` | libs/crypto/src/bip39.cpp:87-96 | Regrouping into bytes and back gives the word indices. |
| `Bip39.Cut` | libs/crypto/src/bip39.cpp:56-73 | The find loop yields the 24 pieces between 23 dashes and fails for any other number. |
| `Bip39.SecureString.PushBack` | libs/core/src/secure_string.cpp:52-62 | Appends while the character and the terminator fit, otherwise discards the character. |
| `Words.LowerBound` | libs/crypto/src/bip39.cpp:77 | The first word not below the one looked for. |
| `Words.Lookup` | libs/crypto/src/bip39.cpp:76-82 | Finds a word exactly when the dictionary holds it. |
| `Words.SplitJoin` | libs/crypto/src/bip39.cpp:39-46 | Splitting at dashes undoes joining words that hold none. |
| `Words.JoinSplit` | libs/crypto/src/bip39.cpp:56-73 | Joining with dashes undoes splitting any text. |
| `KolmogorovSmirnov.Merge` | benchmarks/BT-04/analyze.py:94-112 | The merge of two sorted samples, ties within and across them included, yields the largest distance between their distribution functions over all reals, and it is attained. |
| `KolmogorovSmirnov.Statistic` | benchmarks/BT-04/analyze.py:90-112 | The same for unsorted samples; an error exactly when one is empty. |
| `KolmogorovSmirnov.LargestGapUnique` | benchmarks/BT-04/analyze.py:112 | The value is determined by the samples. |
| `KolmogorovSmirnov.LargestGapSymmetric` | benchmarks/BT-04/analyze.py:90-112 | Swapping the samples does not change it. |
| `KolmogorovSmirnov.LargestGapReordered` | benchmarks/BT-04/analyze.py:94-95 | Reordering a sample does not change it. |
| `KolmogorovSmirnov.LargestGapInUnit` | benchmarks/BT-04/analyze.py:112 | It lies between zero and one. |
| `KolmogorovSmirnov.ZeroGap` | benchmarks/BT-04/analyze.py:114-115 | It is zero exactly when the two distribution functions are equal. |
| `KolmogorovSmirnov.FullGap` | benchmarks/BT-04/analyze.py:112 | It is one exactly when some threshold separates the samples, in either order. |
| `ClockCorrection.AnchorsExact` | benchmarks/BT-06/analyze.py:76-91 | A reading taken at a calibration is corrected to its machine time less its recorded offset. |
| `ClockCorrection.AcceptedIff` | benchmarks/BT-06/analyze.py:77-81 | A timestamp is accepted exactly when the calibrations are in order and it lies at most a twentieth of the window outside it. |
| `ClockCorrection.ExactInside` | benchmarks/BT-06/analyze.py:82-85 | Inside the window the corrected time before rounding runs straight from one of these to the other. |
| `ClockCorrection.CorrectInside` | benchmarks/BT-06/analyze.py:76-91 | Between the calibrations a reading is corrected to the mean of their host times weighted by distance, rounded half to even; its offset and uncertainty are the weighted means of theirs, the latter halved and not below zero. |
| `ClockCorrection.CorrectOutside` | benchmarks/BT-06/analyze.py:82-91 | Outside them an accepted reading is corrected by the nearer calibration's offset alone, which with half its round trip is reported. |
| `ClockCorrection.KeepsOrderIff` | benchmarks/BT-06/analyze.py:76-91 | For any two calibrations, correction, rounding half to even included, never reverses two readings exactly when the window is empty or machine time less recorded offset does not go down. |
| `ClockCorrection.FaithfulOrder` | benchmarks/BT-06/analyze.py:63-73 | If the recorded offsets are machine time minus host time, calibrations are corrected to their host times, and order is kept exactly when those are in order. |
| `ClockCorrection.UnfaithfulReverses` | benchmarks/BT-06/analyze.py:63-73 | With other recorded offsets, host times in order do not keep readings in order. |
| `ClockCorrection.Round` | benchmarks/BT-06/analyze.py:88 | Within one half, ties to even. |
| `AckGating.IndexEvents` | benchmarks/BT-06/analyze.py:94-106 | Indexes a log by lower-cased id, or fails exactly when two events share one. |
| `AckGating.KeysEqualIff` | benchmarks/BT-06/analyze.py:98 | Two ids share a key if and only if they differ at most in the case of ASCII letters. |
| `AckGating.Validate` | benchmarks/BT-06/analyze.py:109-146 | Accepts exactly the runs with consistent logs, sequence numbers 1 to n, and every message queued no earlier than the previous acknowledgement. |
| `AckGating.AcceptedRunIff` | benchmarks/BT-06/analyze.py:109-146 | Event by event: acceptance means the flags set, the same messages once in each log, queue events numbered from 1 to n, and none queued before the acknowledgement of the one numbered just below it. |
| `AckGating.BuildRows` | benchmarks/BT-06/analyze.py:149-201 | Yields one row per message in sequence, each describing the queue event with its number and the events with its key in the other logs, or fails exactly when no such rows exist. |
| `AckGating.RowOfIff` | benchmarks/BT-06/analyze.py:163-201 | A row comes out of four events if and only if it holds their sequence number, key and readings, the corrected times with the sender's clock for all but the reception, each interval as the difference of its ends, offsets and uncertainty of the two clocks, and no interval is negative. |
| `AckGating.RowParts` | benchmarks/BT-06/analyze.py:168-176 | In an accepted row the times are ordered, each interval is the difference of its ends, and the latency is the sum of its parts. |
| `AckGating.RejectedIff` | benchmarks/BT-06/analyze.py:172-176 | A row is rejected exactly when a reading is out of window or two corrected times are out of order; the decomposition check alone never rejects. |
| `AckGating.GatingIff` | benchmarks/BT-06/analyze.py:136-176 | For any calibrations of the sender, every accepted run has its corrected queue-to-acknowledge intervals one after the other, exactly when the window is empty or machine time less recorded offset does not go down. |
| `AckGating.FaithfulGating` | benchmarks/BT-06/analyze.py:136-176 | If the recorded offsets are machine time minus host time, exactly when the host times are in order. |

## Where code and documentation, or two parts of the code, differ

- Only the initial handshake breaks ties between simultaneous requests; periodic rotations do not, and
  two of them in one epoch separate the clients for good (`Exactness.AgreementExactly`).
- A rotation request or answer refused at the quota is not sent again, and the client that waits for it
  waits for good (`Resolution.ResolvesIff`, `Overflow.OverflowStalls`).
- A text longer than 1048227 bytes is padded, encrypted and sent, but its frame exceeds the parser's
  limit and closes the connection (`Padding.TextDeliverableIffShort`, `Padding.LongTextCloses`).
- A second message with the same bytes has the same id, so its receipt marks the first one and it stays
  pending, also when the first one was received rather than sent (`Marks.DeliveredExactly`,
  `Repeats.EchoNeverDelivered`).
- An ACK frame is reported as a delivery whatever plaintext it holds (`Repl.Client.ProcessAckFrame`).
- With a quota of zero the broker stores an empty queue on the first push (`Broker.ZeroQuotaStoresEmpty`).
- The clock correction checks only that the machine's time advances between calibrations, and never reads
  the recorded host times; order is kept only if machine time less recorded offset does not go down
  (`ClockCorrection.KeepsOrderIff`, `AckGating.GatingIff`).
- The latency decomposition check of BT-06 cannot fail (`AckGating.RejectedIff`).

## Left out

- The insides of X25519, Ed25519, BLAKE2b, SHA-256 and XChaCha20-Poly1305. They are symbolic or parameters: ephemeral keys are fresh, Diffie-Hellman commutes, a 48-byte digest determines its input and each of its two parts determines the digest, a sealed payload opens only under its key, signatures cannot be forged, and the calls succeed.
- Asio scheduling, sockets, SOCKS and Tor; what is kept is ordered byte delivery and completion callbacks. Connections in runs do not break.
- Data races between the threads of a client: handlers are atomic steps.
- Restarts, files and persistence, and replacing a contact in the middle of a run.
- Runs of more than two clients, and clients with several contacts: a run has two clients with one contact each, and which mailbox a tick polls is left open. The multi-contact command loop is modelled in `Repl`, where every handler is shown to touch one contact.
- Texts still queued in a responder's old mailbox when it retires that mailbox: nothing is claimed about them.
- TcpClient.Client.DoCbrTick: like the other callbacks it runs only while no other one does, so it is not modelled during an endless search for a nonce. The hash test of the proof of work is a parameter.
- Handshake.Authenticate: covers one connection of an honest client and relay; it says nothing about several connections at once.
- Timestamps of history entries, the printed messages (kept only as notices) and the wiping of buffers.
- Wire.MalformedIffBeyondLimit: stops at 4 GiB, where the source's cast of the length to 32 bits truncates and what follows depends on the payload's own bytes.
- Padding.LongTextCloses: stops at 4 GiB for the same reason.
- The 2048 words of the dictionary: any strictly sorted list of 2048 dash-free words of at most eight letters.
- AckGating.IndexEvents: takes entries as already parsed and lower-cases ASCII letters only; malformed entries and other scripts are not modelled.
- AckGating.BuildRows: leaves out the jitter column, which is copied from the log, and keeps times in nanoseconds.
- KolmogorovSmirnov.Statistic and ClockCorrection.Correct: use exact reals in place of floating point; the p-value of the test is not modelled.
- The inbound history entry of a text stores the payload with its opcode, as the source does; display of histories is not modelled.
- Poisson timers, percentiles, plotting, memory monitoring, logging, seccomp, terminal handling, benchmark orchestration and build scripts.
