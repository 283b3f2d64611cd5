# A verified model of the SMTP client

The program is a single-threaded, poll-driven SMTP client with a logging thread. It picks up mail
files from a maildir, opens one session per destination host, and delivers each message to every
host its `X-Original-To` headers name. A message is shared by the sessions through a reference
count; its file is deleted when the last holder lets go of a message that has no destination left.

The Dafny project models that program and proves what it is for. `dafny verify dfyconfig.toml`
checks all of it.

## How the model is built

| module | models |
|---|---|
| `Text`, `Headers`, `Recipients`, `Messages` | bytes, unfolding and parsing of a header block, grouping of recipients (`src/message.c`) |
| `HeaderText` | the same on literal text: header names, blanks and tabs as they are written |
| `Payload` | what is sent after "354", and the receiver of section 4.5.2 of RFC 5321 (`src/session.c`) |
| `Reading` | what a receiver then reads: the headers before the first empty line, and the body (section 2.1 of RFC 5322) |
| `MailText` | from literal text to literal bytes: what goes out for a mail as it is usually written |
| `Growth`, `FdSet` | the growth rule of all buffers, the set of polled descriptors (`src/fd_set.c`) |
| `Loader` | reading a file in chunks (`message_subscribe`, `message_notify`) |
| `Wire`, `Exchange` | requests and replies on the socket under partial reads and writes, whenever the server speaks; session and connection together |
| `Fallback` | the search MX, AAAA, A, address, connection |
| `Logger` | the logging thread, as interleaved steps of two threads |
| `Sessions`, `Delivery` | the delivery protocol on values: `Step(world, event)` and `Run(host, events)` |
| `DeliveryInvariants`, `DeliverySteps`, `DeliveryEvents`, `DeliveryRuns` | the invariant of the protocol, and that every event keeps it |
| `Server`, `DeliveryViews` | an independent server that follows the conversation in the order of commands of section 4.1.4 of RFC 5321 |
| `LineServer` | a server that is given bytes only, and collects lines and data |
| `DeliverySafety`, `DeliveryOrder` | the main theorems, for all runs |
| `DeliveryRouting` | which sessions a message is given to, and that none of its hosts is forgotten |
| `DeliveryLines`, `DeliveryLosses` | the same for the server that reads bytes: exactly when it comes to the same view, and exactly which blocks can be lost |
| `DeliveryFiles` | the same, from the files: what the loader promises, carried through every run |
| `DeliveryProgress`, `DeliveryChances` | what is always possible: exactly which waiting messages can still be delivered, and that the one assertion can fail |
| `Rounds`, `Passes` | one pass of the event loop as steps of the protocol, and what it does to every file, message and session |
| `Objects`, `Client` | the program's own objects, updated in place, proved against `Delivery` |

**Events.** A run of `Delivery` is any sequence of events: a file is discovered, the next part of a
message is read or cannot be read, the client looks at a message, the network changes a session's
state, a reply with any code arrives, a reply collides with a request that can no longer be written,
a session polls for a body, a closed session is finalized, the client is finalized. An event that is
not possible in a state is passed over, so "for every sequence of events" means every order in which
files, replies and failures can come in. An access to freed memory, a search that falls off a list,
or a failed `assert` sets the `fault` of the store; the one assertion that can fail, against the
dispatch of a closed session, ends the run as `aborted`.

**Two layers.** `Delivery` is written with functions over values, so that theorems can speak about
all runs. `Objects` and `Client` are the imperative program: messages, sessions and the client are
classes whose methods assign fields, loop over lists, and call each other as the C functions do. The
operations on a message require that it has not been freed (`Memory.Holds`). `Client.Valid` says that
the objects stand for the state which the run `trace` has reached, and every method keeps it, so that
each theorem about `Run` is one about the objects (`Client.Client.FilesAreSafe`,
`Client.Client.NothingDangles`).

**The server's view.** `Server.ViewOf(s)` looks only at what session `s` has sent and received, and
works out which mail the other end has accepted. The protocol theorems are stated with that view,
not with the client's own bookkeeping: "delivered" means that the server has the mail. That view still
takes commands as the client means them. `LineServer.ViewOf(s)` starts from the bytes of the same
commands, cuts them into lines and data itself, and takes every byte out of turn for a violation;
`DeliveryLines` says for which conversations the two views agree, and `DeliveryLosses` what can be lost
for which header blocks. A server that answers 250 after such a violation is said to bluff.

## Assumptions

- Text has no NUL byte: `strncmp`, `strchr(" \t", c)` and `%.*s` treat it specially. Where NUL
  matters, a definition says what the code does with it; the theorems ask for NUL-free text.
- Lengths of fields and lines fit in an `int`, and sizes in a `size_t`.
- The header block and the body are not empty, because `realloc(p, 0)` at `src/message.c:300` and
  `src/message.c:326` may end the program.
- Every path is loaded by one message, and its file does not change meanwhile.
- In `Delivery`, a successful MX reply has at least one record. `src/session.c:197-199` does not check
  that; `Fallback.Search.MxCallback` says when it crashes.
- In `Delivery`, what a session has sent is in its transcript as whole commands, and a reply is one to
  the whole of the last command. `Exchange.Link.Notify` shows that this is so as long as the server is
  in step: a greeting, then one single-line reply after each complete request. `Wire` and `Exchange`
  themselves allow any server. The code ignores the fourth character of a reply, so a server that sends
  the multi-line replies of section 4.2.1 of RFC 5321 is not in step with it, nor is one whose reply
  begins with "-1", because that value means "no reply yet" (`Wire.MinusOneIsNoReply`), nor one that
  answers the two lines into which a folded address breaks a command (below).
- In `Fallback`, every lookup is asked and every address attempted at most once, so what comes of it is fixed
  beforehand: for each record its two lookups, for each address how `connect` ends.
- Running out of memory and other calls of `die` end a run.
- Comparing equal lengths with `strncmp` is equality on NUL-free text (`Text.SameBytesIsEquality`);
  `Objects` and `Client` compare with `==`.

## Where code, documentation and expectation differ

- `report/fsm.dot` has no edge from "resolving dns" to "receiving greeting", which the code takes
  when `connect` succeeds at once (`src/session.c:109`). `DeliveryOrder.MovesAreDocumented` allows
  exactly this one more edge.
- A line end inside a header value stays in it (`src/message.c:27-35`), and addresses are printed as they
  are (`src/session.c:403-404`, `src/session.c:425-428`). The block "X-Original-To:" CRLF " u@h"
  (`DeliveryLosses.FoldedRecipientExists`) is accepted, and its RCPT command is two lines
  (`DeliveryLosses.FoldedRecipientBreaksTheLine`). Whether mail is lost by that is up to the server. One
  that refuses the broken line makes the client close the session (`src/session.c:449`,
  `src/session.c:489-492`), and the file stays. One that answers 250 all the same makes the client unlink
  the file although nobody has accepted the recipient (`DeliveryLosses.MailIsLost`). No letter is ever lost
  in another way (`DeliveryLosses.NoLetterIsLost`). A header block is safe with all servers if and only if
  the HELO name and all its addresses have no line end and no header name opens with "." CRLF
  (`DeliveryLosses.LossIsExact`).
- The data of a mail is not always framed. A folded line before the ':' belongs to the header name,
  so a block can begin with the name "." CRLF " x", whose printed form is an end of data.
  `Payload.FoldedDotBreaksFraming` gives such a block, `Payload.Framing` says exactly when the
  payload is framed.
- Only a line that is exactly "." gets a second dot. A body line ".x" arrives without its dot, and
  the bodies "." and ".." are sent alike (`Payload.LoneDotIsAmbiguous`); header lines are not
  stuffed at all. `Payload.Transparency` says exactly when a receiver gets the text back.
- A continuation line of blanks only leaves a line end at the end of the header's value. It is printed
  as an empty line, so that a receiver takes the next header for the body
  (`Reading.DanglingFoldLosesHeaders`; `Reading.DanglingFoldExists` has such a block). `Reading.ArrivesExactly`
  says exactly when headers and body arrive.
- A server that answers early and then resets the connection makes the client dispatch a closed session,
  which `assert(false)` at `src/session.c:485` is there to rule out. `Wire.Connection.Transfer` says
  exactly when that happens, `DeliverySafety.NothingFaults` that nothing else goes wrong.
- The second parser runs even after the first one has failed, on the headers found so far; the
  message has failed all the same (`src/message.c:311-312`, `Messages.Parse`).
- A failed `lseek` is only logged (`src/message.c:234-238`). The body is then read from the start
  of the file, and is the whole file (`Loader.Message.Completed`).

## Model

| member | source | states |
|---|---|---|
| `DeliverySafety.NoMailIsLost` | src/message.c:366-403 | in every run, a file has been unlinked if and only if its header block names somebody and, for every address it names, the server of that host has accepted the recipient and the message; each file is unlinked once |
| `DeliveryOrder.UnlinkedOnAcknowledgement` | src/session.c:462-471 | a file is unlinked only by the step in which a session hears 250 for the payload of that message, never by finalizing a session or the client |
| `DeliverySafety.ServersAgree` | src/session.c:374-492 | the commands, as the client means them: in every run and for every session, the conversation is one a server can follow (greeting, HELO, then MAIL RCPT+ and DATA with payload or RSET, then QUIT; or QUIT after 554; each command after the answer to the last), the session's state fits the server's, and the mail the server has accepted is exactly the mail the session counts as delivered, in order |
| `DeliveryLines.BytesAgree` | src/session.c:357-455 | the bytes: in every run and for every session, a server that only collects lines and data comes to the view of the commands if every command it was sent is one line and every payload ends only at its end; if not, it meets a byte out of turn and has accepted no more than the mail before that |
| `DeliveryLines.AddressesFitLines` | src/session.c:402-429 | every MAIL and RCPT command for an accepted block is one line with one line end, at its end, if and only if the last sender (if anybody is named) and every named user and host have none |
| `DeliveryLines.SendableIsUnderstood` | src/session.c:402-455 | if that is so for all routed blocks and the HELO name, and no header name opens with "." CRLF, every server that reads bytes has the view of the commands |
| `DeliveryLines.LettersAreAsWritten` | src/session.c:402-455 | in every run, the letters that a server has accepted are the first of the mails the client counts as delivered, with sender, recipients and text as written; no address in them has a line end, and their text is framed |
| `DeliveryLosses.NoLetterIsLost` | src/message.c:366-403 | in every run, whatever the header blocks: a file is unlinked if, for every address it names, a server that reads bytes has accepted a letter of this message; and if it is unlinked, then for every address there is a letter, or a server of its host has answered 250 to bytes out of turn. With servers that do not, it is if and only if |
| `DeliveryLosses.SendableIsHonest` | src/session.c:402-455 | in runs whose HELO name and routed blocks all fit, servers cannot bluff, whatever they answer |
| `DeliveryLosses.UnfitIsLost` | src/message.c:27-35 | in every run, a message that does not fit (a line end in an address or in the HELO name, a header name that opens with "." CRLF) is not accepted for everybody it names, whatever the client believes |
| `DeliveryLosses.MailIsLost` | src/message.c:396-403 | from every state of every run before the end, for every accepted block that names somebody and does not fit in this sense, and any body: the run can go on so that the file is unlinked, some address it names has no letter, and the server of that host has answered 250 to bytes out of turn |
| `DeliveryLosses.LossIsExact` | src/message.c:366-403 | for every accepted block that names somebody: in all runs that route only this block exactly the files of accepted letters are unlinked, if and only if HELO name and addresses have no line end and no header name opens with "." CRLF |
| `DeliveryLosses.FoldedRecipientBreaksTheLine` | src/session.c:425-428 | a block with the address on a continuation line is accepted and names somebody, it does not fit, and the RCPT command for it is two lines |
| `DeliverySafety.MailIsAsWritten` | src/session.c:402-455 | every mail a server has accepted has the last X-Original-From as sender, the distinct users named for that host as recipients in order of first occurrence, each accepted in the same transaction, and the other headers and the body as text |
| `DeliveryFiles.ServersGetTheFile` | src/message.c:212-338 | in every run whose loads read what the files hold, every mail a server has accepted has the sender, the recipients at that host and the headers of its file, cut at the first empty line, and the body after it, or the whole file where `lseek` failed |
| `DeliveryFiles.CompletedIsRead` | src/message.c:319-336 | when the loader object has completed a file, its block is the part before the first empty line and its body the rest of the file after it, or the whole file after a failed `lseek` |
| `DeliverySafety.MailIsReadable` | src/session.c:317-355 | from the file to the receiver of an accepted mail: its text is framed exactly when no header name opens with "." CRLF; and a receiver that undoes the dot stuffing, divides the text at its first empty line and parses what is before gets exactly the remaining headers and the body plus one line end, and is left with what follows, if and only if no header name starts with a dot, every body line that does is a lone dot, and no name or value ends with a line end and no name begins with one |
| `Reading.ArrivesExactly` | src/session.c:317-355 | the same for any headers of the parser's shape, any body and any bytes after them |
| `Reading.ReadPrinted` | src/session.c:320-331 | dividing the printed text at its first empty line and parsing the front gives the headers back, and what follows, if and only if no name or value brings a line end of its own |
| `Reading.RemainingOfBlock` | src/message.c:27-35 | the headers that are sent on are trimmed on both sides, every line end in them is folded or ends them, names have no ':', and only the first may be indented |
| `Reading.DanglingFoldLosesHeaders` | src/message.c:57-69 | a line of blanks between any two ordinary headers: the block is accepted, and the receiver takes the second header for the first line of the body |
| `DeliveryOrder.PayloadsAreSentOnceInOrder` | src/session.c:450-471 | payloads are sent in the order in which messages were enqueued, and in all sessions there ever were for a host the payload of a message is sent at most once |
| `DeliveryOrder.MovesAreDocumented` | report/fsm.dot:14-71 | every step of every run moves each session along an edge of the documented automaton, or along the one edge it lacks; a session that was not there starts in "resolving dns" or closed |
| `DeliverySafety.NothingFaults` | src/session.c:406-485 | in no run is freed memory used or does the search for a destination miss; an assertion fails, the one against the dispatch of a closed session, if and only if the event "collision" has happened; which reads and writes are that event is the matter of `Wire.Connection.Transfer` |
| `DeliveryChances.AbortIsPossible` | src/session.c:684-694 | from every state of every run before the end, each session that is not closed can come to a request that a reply can collide with, and then the assertion fails |
| `DeliveryChances.SomeRunAborts` | src/session.c:485 | so there are runs that end in the failed assertion, for every accepted block that names somebody |
| `DeliverySafety.OwnershipIsConserved` | src/message.c:207-210 | every live message is held exactly as often as its count says, by the client's list and by queues; a message is freed exactly when nothing holds it, and once |
| `DeliverySafety.ShutdownFreesEverything` | src/client.c:133-148 | after finalizing the client every message there ever was has been freed exactly once, unless the assertion ended the program before |
| `DeliverySafety.QueuesAreRouted` | src/client.c:80-106 | one session per host; a message is at most once in a queue and still has the queue's host among its destinations |
| `DeliverySafety.PhasesHaveTheirMessage` | src/session.c:433-447 | in a transaction there is a live head message in a state that fits, and the recipient cursor points into its list; listed messages are never in a body state |
| `DeliveryProgress.QueuedMailCanBeDelivered` | src/session.c:357-502 | from every state of every run: a message in the queue of a session that is neither closed nor quitting, whose loading has not failed, can still be accepted by the server, whatever waits before it and whatever its body is |
| `DeliveryChances.QueuedMailCanBeDeliveredExactly` | src/session.c:357-502 | and only then: a message in the queue of a closed or quitting session, or one that could not be loaded, or any after the end, is accepted at that host in no continuation of the run |
| `DeliveryProgress.EveryMailCanBeDelivered` | src/client.c:53-131 | from every state of every run before the end, with closed and quitting sessions or without: a new file with any block that is accepted and names somebody, and any body, can reach all its hosts, so that it is unlinked |
| `DeliverySafety.DeliveredIsAccepted` | src/session.c:462-464 | the program records a delivery to a host if and only if some server of that host has accepted the message |
| `DeliverySafety.OriginAddresses` | src/message.c:80-166 | the destinations of a routed message are the addresses its header block names: hosts, users and emptiness, in both directions |
| `DeliverySafety.LiveIsNotDelivered` | src/message.c:393-403 | a message that is still held has a host that has not accepted it |
| `DeliveryRuns.RunKeepsInvariant` | src/client.c:53-131 | the invariant of the protocol holds after every run |
| `DeliveryRuns.StepKeepsInvariant` | src/session.c:616-700 | every single event keeps the invariant |
| `DeliveryEvents.ReplyOk` | src/session.c:357-502 | `dispatch` on any reply code keeps the invariant of all sessions and messages |
| `DeliveryEvents.BodyPollOk` | src/session.c:457-461 | so does `dispatch` while the body is being loaded |
| `DeliveryEvents.CollisionOk` | src/session.c:684-694 | a session that is closed by a failing write and then dispatched: the assertion fails, and everything else is as it should be |
| `DeliveryEvents.StartTransferOk` | src/session.c:395-419 | the start of a transaction, or QUIT when the queue is empty, after any finished one |
| `DeliveryEvents.AfterTransferOk` | src/session.c:463-470 | the end of a transaction: marked if accepted, dequeued, released, and made part of the conversation's past |
| `DeliveryEvents.RouteOk` | src/client.c:76-112 | looking at a message of the list, whatever its state and however many sessions are made |
| `DeliveryEvents.ReapOk` | src/client.c:124-128 | finalizing a closed session, messages in its queue or not |
| `DeliveryEvents.ShutdownOk` | src/client.c:133-148 | finalizing the client leaves an empty heap |
| `DeliverySteps.LoadedOk` | src/message.c:246-338 | the next part of a message, or its failure, at any time |
| `DeliverySteps.FinishOk` | src/message.c:366-391 | marking a message as sent to one host does not disturb the sessions of the others |
| `DeliverySteps.PendingRemove` | src/message.c:370-390 | taking the destination of a host off the list is the same as recording its acknowledgement |
| `DeliverySteps.PendingRecipients` | src/session.c:406-415 | a host that has not acknowledged is found, with the recipients it had from the start |
| `DeliverySteps.ReleaseUnlinks` | src/message.c:396-403 | the test for unlinking is true exactly of a message delivered to all its hosts |
| `DeliveryViews.SessionUnderstood` | src/session.c:374-492 | for one session: what the server makes of the conversation |
| `DeliveryViews.TransactionView` | src/session.c:402-477 | a finished transaction puts one mail with all its recipients into the server's mailbox, or nothing when it was aborted |
| `Rounds.RoundLeavesNoneClosed` | src/client.c:119-130 | a pass over all sessions leaves none that is closed, whatever happens in it, unless the assertion ends the program |
| `Passes.PassDecides` | src/client.c:53-117 | one pass decides about every listed message and every new file: one that waits for its headers is routed with what the block says when it has come in and is accepted, is freed unrouted when it could not be read or is not accepted, and stays in the list as it is otherwise; each new file is looked at in the pass that finds it |
| `Passes.PassServes` | src/client.c:119-130 | and it serves every session once, unless the assertion ends it: a body that has come in for the head of the queue is there afterwards, with its text, or its loading has failed; then the session hears the code it was answered with, announces the data or gives the message up, or goes where the network takes it; it is in the list or, if it is closed, finalized |
| `DeliveryRouting.RouteGivesExactly` | src/client.c:80-112 | a listed message with headers is put at the end of the queues of exactly the sessions of its hosts, and no other session changes; sessions that are made for it resolve, but for those whose resolver is refused, which are closed |
| `DeliveryRouting.EveryHostIsGiven` | src/client.c:80-106 | in every run, for every host that a routed message names some session of that host has been given it, and no session has been given a message that does not name its host |
| `DeliveryRouting.MessagesAreFiles` | src/client.c:55-69 | in every run, the messages are the discovered files, in the order of discovery, each under its own path |
| `Client.Client.constructor` | src/client.c:25-39 | the objects stand for the initial state |
| `Client.Client.Notify` | src/client.c:53-131 | one pass of the event loop on the objects: every path becomes a message of that path; every listed message that waits for its headers leaves the list with what they say, is freed, or waits on; every message at the head of a queue that waits for its body is loaded with the text that has come in, has failed, or waits on, unless the assertion ends the pass; and all of it is what the steps of the protocol do to the state |
| `Client.Client.Discover` | src/client.c:55-69 | a new message of this path joins the end of the list |
| `Client.Client.NotifyMessages` | src/client.c:71-117 | every listed message is loaded further and looked at; those left in the list still wait for headers |
| `Client.Client.NotifySessions` | src/client.c:119-130 | every session is notified once and finalized if it is closed then; the loop ends where the assertion fails |
| `Client.Client.NotifySession` | src/session.c:616-700 | one turn of a session on the objects: a head message in LOADING_BODY is afterwards loaded with the text that has come in, or has failed, or waits on; then the session, unless the assertion ends the program, hears its reply, announces the data or gives the message up when the body is there or has failed, or goes where resolver and socket take it; otherwise it stays as it is |
| `Client.Client.RouteMessage` | src/client.c:76-116 | a message is left alone, given up, or handed to its sessions and taken off the list |
| `Client.Client.RouteTo` | src/client.c:84-105 | the session for a host is found or made, and given the message |
| `Client.Client.SearchSession` | src/client.c:84-91 | the loop finds the first session for the host, or none |
| `Client.Client.Reply` | src/session.c:681-695 | a reply is dispatched; the other sessions do not change |
| `Client.Client.BodyPoll` | src/session.c:675-677 | the same for a session that waits for a body |
| `Client.Client.Collide` | src/session.c:684-694 | the rest of the request of a reply cannot be written: the session is closed and dispatched, and the program is aborted |
| `Client.Client.Network` | src/session.c:638-669 | one change of state by resolver, `connect` or socket |
| `Client.Client.Travel` | src/session.c:621-669 | several such changes in one call: the session ends where the path ends that the search for a server has taken |
| `Client.Client.Reap` | src/client.c:124-128 | a closed session gives its messages back and leaves the list |
| `Client.Client.Finalize` | src/client.c:133-148 | the loops leave both lists and the heap empty |
| `Client.Client.NothingDangles` | src/session.c:465-468 | every message object that lists, queues and cursors refer to has not been freed |
| `Client.Client.FilesAreSafe` | src/message.c:396-403 | `NoMailIsLost` for the objects of the program |
| `Objects.Message.constructor` | src/message.c:168-205 | a new message is allocated with one reference |
| `Objects.Message.Retain` | src/message.c:207-210 | one more reference; nothing else changes |
| `Objects.Message.Release` | src/message.c:393-443 | one reference less; the last one frees, and unlinks if body loaded and no destination left |
| `Objects.Message.StartLoadingBody` | src/message.c:358-364 | only a message with headers starts to load its body |
| `Objects.Message.MarkAsSent` | src/message.c:366-391 | the loop removes the destination of the host, and only it |
| `Objects.Message.Load` | src/message.c:246-338 | what the next part of the file does to the message |
| `Objects.Session.constructor` | src/session.c:504-566 | a new session resolves, or is closed when the resolver could not be set up |
| `Objects.Session.EnqueueMessage` | src/session.c:702-712 | the message is retained and put at the end of the queue |
| `Objects.Session.SearchDestination` | src/session.c:406-413 | the unguarded loop ends at the destination of this session |
| `Objects.Session.StartMessageTransfer` | src/session.c:395-419 | MAIL for the head message, or QUIT; the body starts to load |
| `Objects.Session.BodyLoadingDone` | src/session.c:437-447 | DATA, RSET, or the session closes |
| `Objects.Session.FinishTransfer` | src/session.c:463-470 | marked if accepted, dequeued and released |
| `Objects.Session.SendRcpt` | src/session.c:424-431 | RCPT for the recipient under the cursor, which moves on |
| `Objects.Session.SendPayload` | src/session.c:450-455 | the payload of the head message is the request |
| `Objects.Session.Dispatch` | src/session.c:357-502 | the whole state machine: state, queue, cursor, request bytes and messages afterwards are those of the protocol |
| `Objects.Session.Finalize` | src/session.c:714-727 | every queued message is given back, first to last |
| `Messages.ParseMessage` | src/message.c:311-312 | both parsers in turn; failed if one of them failed |
| `Messages.ParseAccepts` | src/message.c:52-166 | a block is accepted exactly when every unfolded line has a ':' and every recipient header an '@', and then everything in it is where it belongs |
| `HeaderText.WrittenIsRead` | src/message.c:52-166 | for all senders, users and hosts without line end or outer blanks and any other header whose value goes on in a second line: the block that consists of "X-Original-From:", "X-Original-To:" and that header, with a blank or a tab after each ':' and before the second line, is accepted; the sender is that sender, there is one destination with that user, and the other header is left with both its lines |
| `HeaderText.EnvelopeIsRead` | src/message.c:80-166 | the same without the other header: nothing is left to be sent on |
| `HeaderText.CutOrFold` | src/message.c:64-69 | between two texts without line end, a line end followed by a blank, a tab or a NUL is a fold, and one followed by any other character separates two headers |
| `MailText.WrittenIsSent` | src/session.c:317-429 | for all such blocks and a body of two lines: MAIL and RCPT, and the data with the other header on its two lines, the empty line, both lines of the body, a lone dot doubled, and the end of data, byte for byte |
| `Headers.ParseHeader` | src/message.c:15-50 | the four scanning loops find name and value of an unfolded line, or that it has no ':' |
| `Headers.Unfold` | src/message.c:57-69 | the cursor stops at the first CRLF that no blank follows, or at the end, and never passes the end |
| `Headers.ParseHeaders` | src/message.c:52-78 | the loop yields the headers of the pieces of the block up to the first piece without ':' |
| `Headers.JoinPieces` | src/message.c:57-69 | cutting loses nothing: the pieces joined by CRLF are the block |
| `Headers.PiecesOfJoin` | src/message.c:57-69 | and it is the inverse of joining, on lists of header lines |
| `Headers.HeadersOfOk` | src/message.c:71-74 | parsing succeeds exactly when every piece has a ':' |
| `Reading.ReparsedExactly` | src/session.c:320-326 | for headers of the parser's shape, parsing the printed headers without the last CRLF gives the same list if and only if no name and no value ends with a line end |
| `Headers.ParseBlockShape` | src/message.c:25-32 | names and values come trimmed, with every CRLF in them folded, and names without ':' |
| `Recipients.ParseSenderAndDestinations` | src/message.c:80-166 | the loop over the headers computes the envelope |
| `Recipients.AddRecipient` | src/message.c:114-144 | the address is added to the group of its host, at the end, once |
| `Recipients.EnvelopeIsGrouped` | src/message.c:80-166 | the scan succeeds exactly when every X-Original-To has an '@'; sender, remaining headers and groups are then those of the simple definitions |
| `Recipients.GroupsAreDistinct` | src/message.c:114-144 | hosts are distinct, users of a host are distinct and not empty, and the pairs are exactly those named |
| `Payload.WriteHeaders` | src/session.c:320-326 | every header is printed in order |
| `Payload.ScanLine` | src/session.c:339-341 | the inner loop finds the end of the line |
| `Payload.WriteBody` | src/session.c:336-352 | the body is sent line by line, a lone dot doubled |
| `Payload.WriteDataPayload` | src/session.c:317-355 | headers, empty line, body, end of data |
| `Payload.Framing` | src/session.c:317-355 | CRLF "." CRLF occurs once, at the very end, if and only if no header name opens with "." CRLF |
| `Payload.FoldedDotBreaksFraming` | src/message.c:64-69 | a header block that breaks the framing, through the parser |
| `Payload.Transparency` | src/session.c:336-354 | a receiver gets the text back and is left with what follows it if and only if no header name starts with a dot and every dot line of the body is a lone dot |
| `Payload.LoneDotIsAmbiguous` | src/session.c:343-345 | the bodies "." and ".." are sent alike |
| `LineServer.BytesAreUnderstood` | src/session.c:374-455 | for any conversation in the order of commands: the server that reads bytes comes to the same view if every command is clean, and otherwise meets a byte out of turn |
| `LineServer.HonestMailbox` | src/session.c:374-492 | for any conversation in the order of commands in which 250 never answers bytes out of turn: the server that reads bytes has accepted exactly the mail the commands mean |
| `LineServer.CleanExactly` | src/session.c:385-429 | a command is one line exactly when the names put into it have no line end |
| `Loader.Message.Subscribe` | src/message.c:212-244 | the file is opened and read from `offset`, or from the start if `lseek` fails |
| `Loader.Message.Notify` | src/message.c:246-356 | whatever the chunks: the reads go on as long as they bring bytes, and the last one decides (EAGAIN: wait, error: failed, end of the file: as below); the block ends at the first CRLF CRLF, loading fails for lack of one exactly when there is none, and block, separator and body are the file unless `lseek` failed |
| `Loader.Message.Scan` | src/message.c:292-316 | the resumed scan stops at the first separator of the file |
| `Loader.Message.FinishHeaders` | src/message.c:295-314 | the block is cut off and parsed, the bytes read beyond it are dropped |
| `Loader.Message.FinishBody` | src/message.c:319-336 | the body completes the file |
| `Growth.GrowthIsAmortised` | src/fd_set.c:19 | however often a buffer grows, at most 3/2 of its capacity has been copied, and the capacity is at most 5/3 of the size at the last growth, plus 1 |
| `Growth.Reallocate` | src/message.c:253-261 | the content is kept in a larger buffer |
| `FdSet.Set.Add` | src/fd_set.c:17-34 | the item is appended, within the bounds; the timeout is the least non-negative one given |
| `FdSet.Set.GetEvents` | src/fd_set.c:44-50 | the `revents` of the first item with the descriptor, or 0 if there is none |
| `FdSet.FirstEventsAt` | src/fd_set.c:45-49 | skipping items with other descriptors does not change the result; it is the `revents` of the item that comes next, or 0 |
| `FdSet.Set.Clear` | src/fd_set.c:52-55 | no item and no timeout is left |
| `Fallback.Search.constructor` | src/session.c:562-565 | a search starts with all candidates untried, in the documented order |
| `Fallback.Search.MxCallback` | src/session.c:172-201 | the IPv6 lookup for the first record, or closed; it crashes exactly on a successful answer without a record |
| `Fallback.Search.TryNextMxReply` | src/session.c:28-38 | the next record, or closed when all candidates have been tried |
| `Fallback.Search.AaaaCallback` | src/session.c:141-170 | the addresses are tried in order, the rank (records, phase, addresses) falls, closed only when no candidate is left; CONNECTING exactly after EINPROGRESS, waiting for the greeting after success; the state goes a way that the protocol allows the network |
| `Fallback.Search.ACallback` | src/session.c:112-139 | the same for IPv4 |
| `Fallback.Search.AttemptList` | src/session.c:41-107 | the loop tries the addresses one after the other, none twice, until `connect` does not refuse: CONNECTING if it gave EINPROGRESS, waiting for the greeting if it succeeded; all before were refused |
| `Fallback.Search.TryAddr` | src/session.c:40-110 | the list is tried from the index on, with the same outcome; after it the IPv4 lookup or the next record |
| `Fallback.Search.ConnectEnded` | src/session.c:638-667 | a pending connection that succeeds waits for the greeting; one that fails goes on with the next candidate, on a way of at most two changes that the protocol allows the network |
| `Fallback.Search.FindsTheFirst` | src/session.c:28-110 | a search that waits for the greeting has come to the first candidate, in the documented order, that accepts connections, and has attempted all before it; one that gave up after the last candidate has found none |
| `Wire.Connection.TryReceive` | src/session.c:203-272 | under any chunking and whatever the server sends: nothing of the stream is lost; `read` is called as long as it brings bytes and no whole line; a code is received if and only if the last `read` completed a first line that begins with a number, and is that number; the session is closed if and only if the last `read` failed without EAGAIN, or was the end of the stream, or completed a line without a code |
| `Wire.Connection.TrySend` | src/session.c:274-301 | what is written is always what was written for earlier requests and a prefix of the current one; `write` is called as long as it takes bytes and some are left; the request is complete if and only if the last `write` took bytes, and the session is closed if and only if it failed without EAGAIN |
| `Wire.Connection.Transfer` | src/session.c:681-695 | whenever the server speaks: after the reads and writes of a turn there is a code if and only if a whole reply has been read, and the session is closed if and only if a read or write ended it, as above; calls that only blocked leave it open; a closed session with a code never happens with a server in step |
| `Wire.Connection.ServerSpeaks` | src/session.c:223-240 | more bytes at any time; one reply to a complete request keeps the server in step |
| `Wire.Connection.NextRequest` | src/session.c:357-363 | the next request replaces the current one, and what has been read is dropped, be it one reply or more |
| `Exchange.Link.Notify` | src/session.c:681-695 | session and connection together, by the system calls of the turn: it dispatches the code that the stream begins with if a whole reply was read, aborts if then the rest of the request could not be written, breaks if only a read or write ended the connection, and waits otherwise; with a server in step it never aborts, and what has been written is a prefix of the commands of the transcript, all of them but the rest of the last |
| `Exchange.TurnIsStep` | src/session.c:681-695 | a turn of session and connection is the session's own step in the pass of the event loop, with the signal that says how the turn ended |
| `Exchange.Link.Poll` | src/session.c:675-677 | the same for the dispatch that needs no reply |
| `Exchange.DispatchSays` | src/session.c:357-502 | `dispatch` puts into the request buffer exactly the bytes of what it adds to the transcript |
| `Exchange.RepliesAreSafe` | src/session.c:692-694 | in every state of every run, any code can be dispatched in an open session without a fault |
| `Wire.ScanOfDigits` | src/session.c:256-259 | on three digits `sscanf` reads the number they spell |
| `Wire.ScanOfNumber` | src/session.c:256-259 | blanks, a sign or none, digits, and then anything but a digit: the number that the digits spell, negative after "-" |
| `Wire.ScanOfNothing` | src/session.c:256-259 | a sign without a digit after it is no number |
| `Wire.DigitsMakeReply` | src/session.c:256-259 | a line that begins with three digits is a reply with that code |
| `Wire.FirstReplyStays` | src/session.c:241-264 | the code does not depend on what comes after the first line |
| `Wire.MinusOneIsNoReply` | src/session.c:692 | "-1" is read as the value that means that there is no reply |
| `Logger.RunKeepsInvariant` | src/logger.c:50-94 | in every interleaving: written, local and shared messages and the one being entered together are those that `logger_vprintf` has been called with, in order; a sleeping consumer has nothing to do or is about to be signalled |
| `Logger.EverythingIsWritten` | src/logger.c:186-217 | in every interleaving, what is written is a prefix of the messages that `logger_vprintf` has been called with; once `logger_finalize` has returned it is all of them, in order, and they are the file if no write has failed |
| `Logger.EverythingCanBeLogged` | src/logger.c:142-184 | for every list of messages there is a run that logs them and ends, and whose file is that list |
| `Logger.MutualExclusionAndWakeup` | src/logger.c:60-77 | the two threads are never both between lock and unlock, and no wakeup is lost |
| `Logger.ShutdownEnds` | src/logger.c:212-217 | from `pthread_join` on, some step is always possible and every step leads closer to the end |

## Left out

- `poll`, sockets, `read`, `write`, `open` and `unlink` as system calls: chunk sizes, EAGAIN, errors and results are arbitrary inputs; unlinking is recorded.
- c-ares, `hostent` and `sockaddr` memory, `ares_cancel`: a lookup answers with failure or a list; the order of MX records is taken as it comes.
- `src/maildir.c`: discovered paths are inputs.
- `src/main.c`, `src/settings.c`, `src/signal_handler.c`, `src/ensure_directory.c`, `src/masprintf.c`, `src/die.c`: operating system plumbing; `die` ends a run.
- The text of log messages, and formatting beyond the emitted bytes.
- Liveness of delivery: `DeliveryProgress` and `DeliveryChances` say what is possible, not what must happen. Messages given to a session that is already sending QUIT are released unsent and their files stay (`DeliveryChances.QueuedMailCanBeDeliveredExactly`).
- `Logger` models the two threads as interleaved steps on a value rather than as running threads, because their interleaving is the subject.
- `Delivery` joins the search for a server, the reading of files and the exchange on the socket by their outcomes; `Fallback`, `Loader` and `Wire` model them step by step. `Exchange` composes session and connection and gives the client its signals (`Exchange.TurnIsStep`), `DeliveryFiles` takes over what `Loader` promises, and `Client.Client.Travel` the ways of `Fallback`; the classes are not composed into one program.
- Client.Client.Network: allows every change of state that `Fallback` and a socket error can cause, so it says less about the order of connection attempts than `Fallback` does; the order is in `Fallback`.
- Loader.Message.Notify: speaks about one file that does not change while it is read.
- The server of `LineServer` takes a second line, or a byte after the end of the data, for a violation; what a server that reads on would make of them is not modelled.
