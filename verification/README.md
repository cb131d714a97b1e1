# Verification of the IPK24-CHAT client

A Dafny model of the chat client: the stop-and-wait transport of the listener thread, the
finite state machine in its own thread, the mailbox and the pipe between them, the UDP and
TCP encodings, and the console input. The client keeps its state in objects that are
updated in place, and so do the classes here (`MailSerializer`, `InputStream`, `MailBox`,
`FSM`, `Connection`, `Listener`); each method is proved against a function on values. The
same functions are the steps of a transition system in which the two threads interleave at
every access to a queue or to the pipe, and the results about runs are proved there, for
every list of events and hence for every reachable state.

| file | content |
|---|---|
| `Mails.dfy` | messages, validators, identifiers |
| `Words.dfy` | 16-bit words read from signed or unsigned `char` |
| `UdpCodec.dfy`, `TcpCodec.dfy`, `Streams.dfy` | the two encodings and their parsers |
| `Serializer.dfy` | the class that writes both encodings |
| `MailBoxes.dfy`, `Console.dfy` | the mailbox; console chunks, lines and commands |
| `Fsm.dfy` | the state machine, its language and its termination |
| `Listeners.dfy` | the handlers of the listener and one pass of its loop |
| `Systems.dfy` | the interleaving of the two threads |
| `Refinement.dfy` | one pass of the class `Listener` is a run of that system |
| `Accounting.dfy`, `Relaying.dfy`, `StopAndWait.dfy`, `Receiving.dfy`, `TcpMode.dfy` | results about every run |
| `Arrivals.dfy`, `Reactions.dfy` | what the machine is given and what it does with each mail, in every run |
| `Formats.dfy` | the bytes that leave and the bytes that arrive, written out |
| `Network.dfy` | the client and a peer over a lossy, duplicating, reordering network, for unsigned and signed `char` |
| `Bytes.dfy` | what ids become between machines, from bytes to protocol |
| `EndToEnd.dfy` | from the lines typed to what the peer hears |
| `Scenarios.dfy`, `Conversations.dfy` | runs that exist: refused logins, conversations of any length over UDP and TCP, clean ends, and the failures below |

`dafny verify dfyconfig.toml` checks the whole project.

## Where the code does not do what one would expect

The model follows the code. Each point below is a theorem.

- The repository's own README (its line 71) calls serialization reversible. Over TCP an AUTH is read
  back with DisplayName and Secret exchanged; it survives if and only if the two are equal
  (`AuthRoundTripsIff`). The serializer's own UDP REPLY is never read back
  (`OwnReplyNeverRoundTrips`); the layout of the test server is (`ServerReplyRoundTrip`).
- `readUInt16` reads plain `char`. Where `char` is signed exactly the ids with a low byte
  below 128, or from 0xFF00 on, are read back (`WordSurvives`); the CONFIRM of any other id
  is never accepted (`ConfirmAcceptedIff`), and a server's numbering is read in order only
  up to 256 messages (`NumbersReadInOrderIff`). Over the network a run with n transmissions
  exists for every n when `char` is unsigned, and exactly up to n = 129 when it is signed:
  mail number 128 is never confirmed (`TransmissionsIff`, `SignedCharStalls`).
- CHANGELOG.md:1 promises to deal with datagram loss. A message that is not a REPLY is
  confirmed exactly once: if that CONFIRM is lost, repeating the message brings no other
  (`NoSecondConfirm`).
- The machine stops without a BYE by exactly one step: in the open state, on a BYE of the
  server (`BecomesDesertedIff`). From then on the listener's loop never ends
  (`NoExitAfterServerBye`); such a run exists (`ServerByeDeserts`). Once the machine has
  stopped, the loop can still end if and only if a BYE was sent (`ExitReachableIff`).
- A message of the server is sent back to it if and only if it is a JOIN that finds the
  machine open or an AUTH that finds it not open yet (`EchoedIff`); a JOIN can be
  (`ServerJoinEchoed`).
- Identifiers wrap at 65536. When everything counts as confirmed, a peer that tells mails
  apart by id has them all if and only if they are no more than 65536 (`PeerHearsAllIff`,
  `PeerHeardAll`); longer conversations exist, and they end cleanly (`ConversationEnds`).
- A line typed in two reads is cut: its first part is forgotten. Reads compose if and only
  if nothing was pending or nothing was completed later (`SplitRead`).

## Model

| member | source | states |
|---|---|---|
| `Words.ReadWord` | src/headers/mail-box.h:243-247 | whatever the two bytes, the bitwise `or` yields the big-endian word, or, with a signed `char` and a low byte from 128, that byte below a high byte of 255 |
| `Words.WordReadBack` | src/headers/mail-box.h:243-247 | the two bytes written for a number are read as its low 16 bits, or, with a signed `char` and a low byte from 128, with the high byte lost |
| `Words.WordSurvives` | src/headers/mail-box.h:243-247 | for every 16-bit id: read back exactly iff `char` is unsigned, or the low byte is below 128, or the id is at least 0xFF00 |
| `Mails.SetId` | src/headers/mail-box.h:317-328 | giving a mail a number changes the number and no other field of any alternative |
| `Mails.FieldCharacters` | src/headers/mail-box.h:36-60 | the characters each field of each payload allows, by their codes |
| `UdpCodec.DecodedFromSocket` | src/headers/mail-box.h:399-488 | whatever bytes arrive, the parser never answers `false`, and an accepted datagram is a complete, valid mail with 16-bit ids, marked for the queue iff it is no CONFIRM |
| `UdpCodec.KindByCode` | src/headers/mail-box.h:399-488 | each first byte announces its kind, and every other an unknown message |
| `UdpCodec.RoundTrip` | src/headers/mail-box.h:399-488 | parsing the encoding of a valid AUTH, JOIN, MSG, ERR, BYE or CONFIRM followed by anything gives back its kind and wire fields and stops exactly at its end, for signed and unsigned `char` |
| `UdpCodec.WireFieldsExact` | src/headers/mail-box.h:671-844 | with unsigned `char` and a 16-bit id the mail read back differs from the one written in the local `ToSend` flag only |
| `UdpCodec.PrefixFree` | src/headers/mail-box.h:671-844 | no encoding is a prefix of another: equal buffers mean equal wire fields, equal encodings and equal remainders; so encoding is injective on wire fields |
| `UdpCodec.IdSurvives` | src/headers/mail-box.h:399-488 | a whole datagram carries its id across iff `readUInt16` can read that id |
| `UdpCodec.EncodeBound` | src/headers/mail-box.h:36-60 | the validators keep every datagram within bounds: AUTH 9 to 174 bytes, JOIN 7 to 45, MSG and ERR 7 to 1425, BYE and CONFIRM 3 |
| `UdpCodec.EncodeBoundTight` | src/headers/mail-box.h:36-60 | both bounds are reached, for every kind |
| `UdpCodec.ServerReplyRoundTrip` | tests/server.py:87 | the REPLY layout with a one-byte result is parsed back field by field, whatever follows; any result byte but NUL is a success |
| `UdpCodec.OwnReplyNeverRoundTrips` | src/headers/mail-box.h:795-812 | the serializer's REPLY, with a two-byte result, is rejected or read as a failure with a longer content: never as itself |
| `Streams.TokenMeaning` | src/headers/mail-box.h:492-505 | however much white space of whatever sort stands before a word, the word is found and what follows it is left |
| `Streams.InputStream.Extract` | src/headers/mail-box.h:492-505 | `>>` as two character loops: skips white space and takes the next word, leaving the rest |
| `Streams.InputStream.ExtractLine` | src/headers/mail-box.h:506 | `getline` as a character loop: takes everything up to the newline and leaves what is behind it |
| `TcpCodec.DecodedFromSocket` | src/headers/mail-box.h:490-618 | an accepted line is a valid mail that carries the payload of its kind, with the exception of BYE and unknown words, which carry the default payload |
| `TcpCodec.ContentRead` | src/headers/mail-box.h:505-516 | message content survives `getline`, the removal of the carriage return and of one space, whatever spaces it begins or ends with |
| `TcpCodec.ContentReadBare` | src/headers/mail-box.h:505-516 | so it does without the carriage return, without the line end and without the space |
| `TcpCodec.DecodeMeaning` | src/headers/mail-box.h:490-618 | what any line means, by the positions of its words: it throws iff a field is not valid, is rejected iff else a fixed word is out of place, and is else the mail its words spell |
| `TcpCodec.RoundTrip` | src/headers/mail-box.h:490-618 | parsing the line of a valid JOIN, MSG, ERR, REPLY or BYE followed by anything gives back kind and text fields exactly |
| `TcpCodec.AuthSwapped` | src/headers/mail-box.h:557-570 | the line of a valid AUTH is read with DisplayName and Secret exchanged, or throws if the exchanged fields are invalid |
| `TcpCodec.AuthRoundTripsIff` | src/headers/mail-box.h:557-570 | an AUTH survives iff its DisplayName equals its Secret |
| `TcpCodec.AuthCounterexample` | src/headers/mail-box.h:557-570 | a concrete AUTH that does not survive |
| `Serializer.MailSerializer.Visit` | src/headers/mail-box.h:728-812 | the overloaded visits append exactly the fields of the payload, numbers only over UDP and fixed words only over TCP |
| `Serializer.MailSerializer.Serialize` | src/headers/mail-box.h:671-726 | whatever was in the buffer, the result is the encoding whose bytes the next four rows are about |
| `Formats.DatagramLayout` | src/headers/mail-box.h:671-812 | that encoding over UDP, byte by byte: code, number in network order, each text with its NUL |
| `Formats.LineLayout` | src/headers/mail-box.h:671-812 | that encoding over TCP, word by word, with carriage return and newline at the end |
| `Formats.DatagramReadBack` | src/headers/mail-box.h:399-488 | the bytes returned over UDP are read back, with the cursor at their end, whatever follows |
| `Formats.LineReadBack` | src/headers/mail-box.h:490-618 | the bytes returned over TCP are one line with its line end, and are read back, whatever follows, an AUTH with two fields exchanged |
| `MailBoxes.MailBox.AddMail` | src/headers/mail-box.h:300-310 | appends to the incoming queue iff the mail is marked for it, and changes nothing else |
| `MailBoxes.MailBox.WaitMail` | src/headers/mail-box.h:265-287 | removes and returns the oldest incoming mail |
| `MailBoxes.MailBox.SendMail` | src/headers/mail-box.h:312-341 | numbers the mail from the wrapping 16-bit counter, appends it to the outgoing queue and adds one byte to the pipe |
| `MailBoxes.SendMeaning` | src/headers/mail-box.h:312-341 | the same field by field: an unmarked mail changes nothing; another is queued last, as it was but for its number, and the counter wraps |
| `MailBoxes.MailBox.GetOutgoingMail` | src/headers/mail-box.h:293-298 | removes and returns the oldest outgoing mail |
| `MailBoxes.MailBox.WriteMail` | src/headers/mail-box.h:629-653 | makes the client's own ERR, BYE or CONFIRM, or throws when the display name is not valid for an ERR; what an ERR carries is stated by `Reactions.MachineReacts` and `Reactions.OwnErrs` |
| `MailBoxes.MailBox.WriteLine` | src/headers/mail-box.h:343-396 | the mail or local effect of a typed line, and the display name after it |
| `MailBoxes.MailBox.ReadString` | src/headers/mail-box.h:249-257 | the cursor loop yields the characters up to the next NUL and stops behind it |
| `MailBoxes.MailBox.WriteUDPMail` | src/headers/mail-box.h:399-488 | cursor reads field by field agree with the decoder that the round trip is about, position included |
| `MailBoxes.MailBox.WriteTCPMail` | src/headers/mail-box.h:490-618 | stream reads word by word agree with the decoder that the round trip is about |
| `Console.LinesOfTypescript` | src/listeners.cpp:82-99 | from a chunk of whole lines exactly the non-empty ones are taken, in order |
| `Console.SplitRead` | src/listeners.cpp:63-99 | two reads give the lines of the joined text iff nothing was pending after the first or no newline is in the second |
| `Console.FeedMeaning` | src/headers/mail-box.h:343-396 | a chunk is accepted iff every line that makes a mail makes a valid one; then exactly those mails are queued, in order, each MSG and JOIN under the name of the last `/auth` or `/rename` above it |
| `Console.AuthTyped` | src/headers/mail-box.h:350-358 | `/auth` with three words makes the AUTH with user name, secret and display name in this order, and the name is the new one |
| `Console.JoinTyped` | src/headers/mail-box.h:359-367 | `/join` with a channel makes the JOIN under the display name in force |
| `Console.RenameTyped` | src/headers/mail-box.h:368-373 | `/rename` stores any word as the display name and queues nothing |
| `Fsm.ActSendsOutgoing` | src/fsm.cpp:9-131 | what is handed to `sendMail` is always accepted by it, and is an AUTH, JOIN, ERR, BYE or MSG, complete and valid |
| `Fsm.ActSpeaks` | src/fsm.cpp:9-131 | every pass through the switch keeps what was sent in step with the state |
| `Fsm.LanguageOrder` | src/fsm.cpp:7-134 | in the language of the machine BYE is last, ERR is last or just before BYE, and the first mail is neither MSG nor JOIN |
| `Fsm.RunsOut` | src/fsm.cpp:7-134 | with the mails at hand the loop returns, throws or waits within their number plus three iterations |
| `Fsm.ErrorEndsRun` | src/fsm.cpp:8-133 | with an ERR behind k mails the run is over within k + 3 iterations from any state; it throws iff the mails lead to an ERR of the client's own under an invalid display name, and else returns; and its last mail is then a BYE iff none of the k is a BYE that finds the machine open |
| `Fsm.NoByeWhileOpen` | src/fsm.cpp:42-101 | two tests on the mails for that: there is no BYE among them, or no positive REPLY and the machine was not open |
| `Fsm.ErrorEndsExecution` | src/fsm.cpp:8-133 | and that is how the run ends for every larger number of iterations |
| `Fsm.ErrorBoundTight` | src/fsm.cpp:18-34 | in START, behind k ignored messages, k + 2 iterations are not enough |
| `Fsm.FSM.Turn` | src/fsm.cpp:9-132 | the switch over states and kinds, updating `state`, `mail` and the mailbox, is one step of the machine |
| `Fsm.FSM.RunLoop` | src/fsm.cpp:7-134 | the loop ends in END, with an exception, or waiting on an empty queue, exactly as the run of the machine on values does |
| `Reactions.MachineReacts` | src/fsm.cpp:7-134 | in every reachable state in which a mail is dealt with, by its kind, the result of a REPLY, the state and the signal flag, as if-and-only-ifs: when the machine throws, says ERR, says BYE, passes the mail on under the next number or says nothing, with the payloads, and which state it goes to; a refused login leaves it in AUTH and says nothing |
| `Reactions.OwnErrs` | src/headers/mail-box.h:632-653 | in every run each ERR sent carries "MessageContent", its number and a display name that was in force |
| `Reactions.SignalErrs` | src/listeners.cpp:259-264 | in every run a mail with the signal flag is such an ERR |
| `Reactions.BreaksOffIff` | src/listeners.cpp:61-372 | in every run an exception ends it by exactly these steps: a message or a line with an invalid field, and an ERR to be made under an invalid display name; "not responding" by a timeout with the retries used up |
| `Listeners.SendOnlyWhenConfirmed` | src/listeners.cpp:287-349 | for every order of events in every batch the to-send handler finds nothing outstanding, its byte in the pipe and its mail in the queue |
| `Listeners.Connection.SendData` | src/net.cpp:161-173 | every mail handed over leaves as its encoding |
| `Formats.DatagramsReadBack` | src/net.cpp:161-173 | in every run every text a connection has sent is read back as the mail on the wire; over TCP it is that mail's line |
| `Listeners.Listener.ListenStdin` | src/listeners.cpp:61-102 | the character loop feeds exactly the completed lines of the chunk to the mailbox, in order, and throws iff one of them does |
| `Listeners.Listener.ListenSocket` | src/listeners.cpp:139-200 | decodes the message and applies the receiving rules to it; throws iff its validators do; after a TCP line without its fixed words clears `keepRunning` and queues a mail whose type was never set |
| `Listeners.Listener.HandleMail` | src/listeners.cpp:152-199 | the three-way switch over REPLY, CONFIRM and other kinds, with all its updates |
| `Formats.LineArrives` | src/listeners.cpp:139-200 | over TCP the bytes of any line put the mail they stand for into the incoming queue and change nothing else |
| `Formats.UnknownArrives` | src/headers/mail-box.h:612-616 | a line with another first word is queued as an unknown message |
| `Formats.MalformedArrives` | src/listeners.cpp:146-150 | a line with valid fields whose fixed words are not in place is queued as a mail of unset type and clears `keepRunning` |
| `Arrivals.QueueIsWhatArrived` | src/listeners.cpp:61-264 | in every run what the machine has fetched and what waits for it is, in order, a mail for each accepted line under the name in force, each message taken from the socket, and the ERR of each signal; over TCP every message that came, over UDP the new ones |
| `Arrivals.FetchesInOrder` | src/headers/mail-box.h:265-287 | whenever it waits the machine can fetch the next of them, and nothing else |
| `Arrivals.KeepsRunningIff` | src/listeners.cpp:32-264 | `keepRunning` is cleared by exactly a signal, the transmission of BYE or the main thread, and never set again |
| `Listeners.Listener.ListenToSendPipe` | src/listeners.cpp:202-242 | reads the byte, pops the mail, transmits it and starts waiting for its CONFIRM over UDP only |
| `Listeners.Listener.ListenSignal` | src/listeners.cpp:244-267 | queues the ERR of a signal and clears `keepRunning` |
| `Listeners.Listener.Iterate` | src/listeners.cpp:285-366 | one pass of the loop: back-pressure, timeout or the whole batch in its order, as the composition of the handlers |
| `Listeners.Listener.Stop` | src/listeners.cpp:32-40 | clears `keepRunning` and nothing else, as the step `MainStop` of the system does |
| `Listeners.Listener.constructor` | src/headers/listeners.h:18-30 | the initial values of the fields |
| `Systems.StepsAreIteration` | src/fsm.cpp:7-134 | the three atomic steps of the machine's thread, undisturbed, are one iteration of its loop |
| `Refinement.TurnIsRun` | src/listeners.cpp:285-366 | one pass of the loop of the class, undisturbed, is a run of the interleaved system that leaves the machine's thread alone; a pass that throws is a run to `Thrown`, or to `NotResponding` when the wait timed out |
| `Accounting.AlwaysComplete` | src/headers/mail-box.h:265-396 | in every reachable state every queued mail is marked for the queue, is no CONFIRM, has the payload of its kind and passes its validators, although `/rename` stores unchecked names; and so does everything sent |
| `Accounting.AlwaysBalanced` | src/headers/mail-box.h:265-341 | under every interleaving: outgoing mails = bytes in the pipe + a push not yet announced + a byte not yet redeemed; sent = transmitted followed by outgoing; added = consumed followed by incoming; the i-th mail sent has id i mod 65536 |
| `Accounting.NeverStuck` | src/listeners.cpp:202-216 | `getOutgoingMail` never meets an empty queue, and no `std::get` the wrong alternative |
| `Accounting.OutputLanguage` | src/fsm.cpp:7-134 | everything a run sends is AUTHs, then MSGs and JOINs, then nothing, ERR, BYE or ERR and BYE; never REPLY, CONFIRM or UNKNOWN; MSG and JOIN only after a positive REPLY was consumed |
| `Accounting.LastWords` | src/fsm.cpp:119-124 | in every run nothing is sent after BYE, and only BYE after ERR |
| `Relaying.PassesOnExactly` | src/fsm.cpp:10-118 | numbers and the machine's own ERR and BYE aside, what a run sent is exactly, and in order, the AUTHs it consumed before the first positive REPLY and then every JOIN and every message typed by the user, wherever an AUTH or JOIN came from |
| `Relaying.EchoedIff` | src/fsm.cpp:10-118 | in every run a mail off the socket that the machine deals with is sent back iff it is a JOIN and the machine is open, or an AUTH and it is not open yet |
| `Scenarios.ServerJoinEchoed` | src/fsm.cpp:102-106 | after any login, any JOIN of the server goes back to it |
| `StopAndWait.WatchLegal` | src/listeners.cpp:285-315 | meaning of the trace observer: it accepts a trace iff every first transmission stands at the start or right after a CONFIRM, every repetition repeats the mail transmitted last, at most limit places behind it and with nothing but repetitions between, and every CONFIRM names that mail |
| `StopAndWait.OneAtATime` | src/listeners.cpp:287-293 | in every reachable UDP state: mails are taken only when nothing is outstanding; `receivedConfirm` iff `refMsgId == -1`; otherwise the awaited id is that of `confMail` |
| `StopAndWait.WireIsStopAndWait` | src/listeners.cpp:174-242 | the wire, CONFIRMs aside, is the trace; first transmissions are the machine's mails in order, each confirmed before the next; every repetition belongs to an unconfirmed mail and is one of at most limit after its first transmission, also behind the last CONFIRM |
| `StopAndWait.GivesUpAfterLimit` | src/listeners.cpp:307-308 | "Server not responding" only after exactly limit + 1 unconfirmed transmissions of the current mail |
| `StopAndWait.RetryMeasure` | src/listeners.cpp:307-315 | every timeout gives up or repeats the last mail and lowers limit - retries, which stays nonnegative |
| `StopAndWait.CleanShutdown` | src/listeners.cpp:285-367 | if the loop has ended, everything the machine ever sent has been transmitted in order and ends with BYE, queue and pipe are empty, and over UDP nothing is unconfirmed |
| `StopAndWait.ShutdownConfirmed` | src/listeners.cpp:174-183 | if the loop has ended over UDP, every first transmission is followed by its own CONFIRM |
| `StopAndWait.BecomesDesertedIff` | src/fsm.cpp:42-124 | in every run, whatever the step: the machine stops without having sent a BYE iff the step deals with a BYE in the open state; and that BYE came off the socket |
| `StopAndWait.DesertedByServer` | src/fsm.cpp:97-100 | so a machine that ended without BYE had been open and consumed a BYE that came off the socket |
| `StopAndWait.NoExitAfterServerBye` | src/listeners.cpp:285 | when an open machine deals with the server's BYE, no continuation of the run ends the listener's loop |
| `Scenarios.ServerByeDeserts` | src/fsm.cpp:97-100 | after any login, any BYE of the server leads there, with the listener still running |
| `Scenarios.ExitReachableIff` | src/listeners.cpp:285 | from every reachable state in which the machine has stopped and the listener is at the head of its loop: some continuation ends the loop iff a BYE was sent |
| `Scenarios.IdleCanEnd` | src/listeners.cpp:244-267 | from every reachable state in which the machine waits with nothing queued and the listener is at the head of its loop, some continuation ends the loop, over either transport; a signal does it |
| `Receiving.AtMostOnce` | src/listeners.cpp:158-197 | against any server: ids of messages taken strictly increase, `srvMsgId` never goes back, at most `srvMsgId + 1` and never more than 65536 messages are taken |
| `Receiving.OnlyLastRequestAnswered` | src/listeners.cpp:166-171 | in every run a new REPLY is taken iff its RefMessageID is the id of the last AUTH or JOIN transmitted |
| `Receiving.OpensOnAnswerToAuth` | src/fsm.cpp:47-53 | across both threads: OPEN is entered only from AUTH, on a positive REPLY whose RefMessageID is the id of an AUTH already transmitted |
| `Receiving.NoReplyAtStart` | src/fsm.cpp:10-41 | in the state START no REPLY is queued or fetched |
| `TcpMode.TcpIsFifo` | src/listeners.cpp:230-315 | over TCP nothing is awaited, timed out or repeated, and the stream written is exactly what the machine sent less what is still queued |
| `Network.PeerHearsInOrder` | src/listeners.cpp:174-242 | over a network that loses, duplicates and reorders, with a peer that confirms only what it received, for unsigned and signed `char`: up to 65536 transmissions, first receipts are the mails in send order without gaps, and all earlier ones have arrived when the next is dequeued |
| `Network.PeerHearsAllIff` | src/headers/mail-box.h:312-341 | the exact limit, in every run: when the client believes everything confirmed, the peer has all it transmitted iff that is no more than 65536 mails |
| `Network.PeerHeardAll` | src/listeners.cpp:285-367 | when the loop has ended the peer has received the whole conversation up to BYE iff that is no more than 65536 mails |
| `Network.PeerHoldsAtMost65536` | src/headers/mail-box.h:326 | by the wrap of the counter a peer that distinguishes mails by id never holds more than 65536, however many are transmitted |
| `Network.SignedCharStalls` | src/headers/mail-box.h:243-247 | with a signed `char` no run transmits more than 129 mails, whatever the network and the peer do |
| `Conversations.TransmissionsIff` | src/headers/mail-box.h:243-247 | a run with n transmissions exists iff `char` is unsigned or n is at most 129 |
| `Conversations.Conversation` | src/listeners.cpp:61-242 | for any login, any number of refusals up to 65535 and any list of messages and changes of channel there is a run over the network in which the logins are refused, one is accepted, the lines are typed, and every mail is transmitted in order with every field and confirmed; with a signed `char`, for up to 128 mails |
| `Conversations.ConversationOverTcp` | src/listeners.cpp:61-242 | the same over TCP, with any number of refusals, every mail being on the wire |
| `Conversations.ConversationAsText` | src/headers/mail-box.h:671-812 | the bytes of such a conversation |
| `Conversations.ConversationEnds` | src/listeners.cpp:285-367 | for every n from 2 on, up to 128 with a signed `char`, there is a run of n mails that ends cleanly, and in it the peer has heard everything iff n is at most 65536 |
| `EndToEnd.SentIsTyped` | src/headers/mail-box.h:343-396 | over either transport the display names and contents of the messages sent are a contiguous block of the lines typed, in order, each with the name of the last `/auth` or `/rename` above it; and no other message is sent |
| `EndToEnd.PeerHearsWhatWasTyped` | src/listeners.cpp:61-242 | from the keyboard to the peer, through console, queues, machine, transport and network: up to 65536 transmissions the peer first hears such a block, and, ERR and BYE aside, a beginning of what the machine was asked to pass on |
| `Network.ClientTakesPrefix` | src/listeners.cpp:153-197 | from a server that numbers its messages and waits for each CONFIRM the client has at every moment taken a prefix of what was sent, all of it or all but the last, and every CONFIRM names a message taken; with a signed `char` the server gets no further than 129 messages |
| `Network.NoSecondConfirm` | src/listeners.cpp:184-193 | towards such a server a message other than a REPLY is confirmed exactly once in a run |
| `Bytes.ConfirmAcceptedIff` | src/headers/mail-box.h:243-247 | the datagram that confirms the outstanding mail is accepted iff its id survives `readUInt16` |
| `Bytes.PeerDecodes` | src/headers/mail-box.h:399-488 | with unsigned `char` a peer decodes kind and id of every mail the client sends |
| `Bytes.ReadFromBytes` | src/headers/mail-box.h:399-488 | every message a server may send arrives, from its datagram, as the mail that the network model delivers, for unsigned and signed `char` |
| `Bytes.NumbersReadInOrderIff` | src/listeners.cpp:185-189 | a server's numbers 0, 1, ... n-1 are read in increasing order iff `char` is unsigned or n is at most 256 |

## Left out

- Sockets, name resolution, the change of the server's port, `epoll`, `pipe` and thread calls (src/net.cpp, main.cpp) are abstract steps; errors of `read`, `recv` and `send`, closed pipes and the end of standard input are not modelled.
- `StopWatch` and real time: a timeout may come whenever a CONFIRM is outstanding, so nothing is said about when a repetition is sent, and no run is claimed to make progress: `Scenarios` shows runs that can happen.
- Receive buffers have no size limit, and a read returns one whole message; bytes after it are arbitrary, but a second message among them is not served.
- Refinement.TurnIsRun: over TCP it is stated for lines whose fixed words are in place; the mail of unset type that the source queues after another line is followed by the class (`Listener.ListenSocket`) but not by the interleaved system.
- Fsm.FSM.RunLoop: runs on the mails already queued, with no other thread; runs with interleaving are the subject of `Systems`.
- Network.PeerHearsInOrder: the peer reads the client's ids exactly, as the test server does; only the client's `char` may be signed.
- A validator that throws ends the run, whichever thread it throws in.
- The fields `displayName` and `sequenceUDPNumber`, which the source reads from two threads without a lock, are read and written atomically.
- Printing, `/help` and `/print` output, colours, argument parsing, `PipeManager` and the regular-expression engine; the validators are predicates on characters and length.
