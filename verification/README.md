# The relay session, its clients, and the peer transfer

Glopfile sends one encrypted file from an uploader to a downloader. The two meet in a *session* on a
relay server, or, when they can, talk directly over a peer channel. Either side may vanish, be replaced
by another connection, and resume anywhere; still the downloader must end up with exactly the uploader's
bytes, and nobody's request may be forgotten. This project models that machinery and proves it.

**The session** (`RelaySession`, `SessionState`). `RelaySession.Step` says what one session does with one
command: the new state, everything put on any channel, in order, and whether the session stops. The class
`SessionState.State` is the imperative form, field by field and method by method as the relay has it, and
each of its methods is proved to reach exactly what `Step` says. Reply channels are named by the
connection and the number of its call, so "answered", "parked" and "dropped" can be counted.

**Runs of one session** (`Effects`, `SessionReadings`, `SessionSteps`, `SessionInvariant`,
`SessionTheorems`,
`SessionLaws`). `SessionSteps` gives a second, independent description of a step, one channel at a
time (who is handed what, what is acknowledged, which reply channels are used); each reading is proved
equal to what the effect list holds. On top of it come invariants and conservation laws over every run.
`SessionLaws` says, for each part of the state, exactly who or what is there after any step, and what that
comes to over runs.

**The whole relay** (`Api`, `RelaySystem`, `UploadInvariant`, `DownloadInvariant`, `RelayInvariant`,
`RelayServe`, `RelayActions`, `RelayTheorems`, `RelayUploads`, `RelayScript`, `RelayTokens`,
`RelayDepartures`, `RelayResponses`, `RelayRequests`, `DownloadBody`, `RelayProgress`, `RelayEnding`).
`RelaySystem` puts a session behind its FIFO mailbox, with any number of upload requests, download
requests and websockets. An upload has at most one call outstanding, may be dropped wherever it waits, and
sends `Disconnected` last; `Apply` takes any one step of any party, and a reachable state is one that any
list of such steps leads to. The theorems hold of every reachable state.

The standing hypotheses of the relay theorems are that the content is shorter than 2^64 bytes and that each
upload request is one that a client holding the content sends: its `Content-Range` is the one that client
prints for some position, and its body is the content from there. `ApiClient` and `EndToEnd` prove that
the uploader's negotiation sends only such requests. A body that breaks off is an upload that is dropped; a
body that ends cleanly is taken to be whole, as HTTP framing makes it.

**The clients** (`Text`, `Range`, `Cipher`, `ApiClient`, `PlaintextReader`, `EndToEnd`,
`Undisturbed`). Header printing and parsing,
character by character; the upload loop that moves to wherever a 409 points; the download loop that
resumes from what it holds; the file that collects ciphertext and decrypts it once; and the reader that
gathers plaintext from a browser file. `EndToEnd` joins both the uploader and the
downloader to the relay.

**The peer transfer** (`Window`, `PeerDownload`). Both ends and the ordered channel between them, the
window of requests in flight, and the downloader's object proved to act as the model's end does.

Some properties one might expect do not hold of the code. Each is shown failing on a concrete run or input,
and comes with the exact condition under which it holds.

- A finished session that runs need not have an uploader (`SessionInvariant.FinishedCanLoseItsUploader`); the
  one step that loses it is `SessionTheorems.FinishedLosesUploader`, and finished itself is left as
  `SessionTheorems.FinishedIsLeft` says.
- A registered uploader need not hear of a finish (`SessionTheorems.FinishCanBeForgotten`,
  `SessionTheorems.FinishCanPassOver`); `SessionTheorems.FinishTellsUploader` says exactly when it does.
- A position read from a content range need not lie within the content; `Range.AcceptedStartMayExceedSize`
  gives the condition on the three numbers printed, and `Range.ContentRangeReads` what becomes of all others.
- A peer transfer may report that it finished without having written the file
  (`PeerDownload.FinishedUnwritten`); it has written it exactly if what it holds has the expected length, as
  `PeerDownload.DownloadState.Written` says in the contracts of that object.
- A read of a browser file may report zero bytes before its end (`PlaintextReader.ZeroBeforeTheEnd`);
  `PlaintextReader.UploadFile.PollRead` says exactly when.

## Model

| member | source | states |
|---|---|---|
| RelayTheorems.DownloadsAreByteExact | glopfile-relay/src/session.rs:347-476 | In every reachable state of the whole relay, every download has been sent, and has read, exactly the content from where its range header asked, without gap, repeat or reordering, and while connected its registered position is its start plus the bytes it was sent |
| RelayTheorems.LiveRequestsAreNeverLost | glopfile-relay/src/session.rs:478-494 | The call a live upload waits on is in exactly one of mailbox, held chunk and answers, and its reply channel was never dropped: a waiter overwritten by a flush always belonged to a request already gone |
| RelayTheorems.RepliesAreAccountedFor | glopfile-relay/src/session.rs:203-207 | While the session runs, each reply channel ever issued is queued, parked or used, exactly once, and one not issued is nowhere |
| RelayTheorems.DataIsNeverPending | glopfile-relay/src/session.rs:441-445 | In no reachable state has anyone been told that data is pending, on any reply channel or in any response |
| RelayTheorems.CompletionIsReal | glopfile-relay/src/session.rs:531-540 | When a session stops because its downloader completed, that download was sent and has read all content from its start, no chunk is held and no reply channel is parked |
| RelayTheorems.OpenDownloadsAreServed | glopfile-relay/src/session.rs:348-352 | A streaming download is the connected downloader or has been told it was replaced |
| RelayDepartures.DepartedHearsNothing | glopfile-relay/src/session.rs:531-541 | In every reachable state a download that streamed, closed, and whose goodbye has been served is not the connected downloader, and whatever the relay does from then on sends it nothing more |
| RelayDepartures.DepartedUploadIsGone | glopfile-relay/src/session.rs:542-553 | In every reachable state an upload that has ended, one way or the other, and whose goodbye has been served is not the registered uploader, and never is again |
| RelayDepartures.DroppedUploadLeaves | glopfile-relay/src/api.rs:260-269 | An upload dropped wherever it is says goodbye behind everything already sent, and gives no response |
| RelayDepartures.UnansweredDropIsSilent | glopfile-relay/src/api.rs:105-116 | A download request dropped before it was answered has no guard yet and tells nobody |
| RelayRequests.RequestIsServed | glopfile-relay/src/session.rs:203-207 | A request of one command joins the end of the mailbox and, once what is in front has been served and unless that ended the session, is served as what it asked for |
| RelayRequests.FinishIsServed | glopfile-relay/src/api.rs:100-104 | Served, a download request for the end of the file is answered, marks the download finished, and ends the session exactly if that leaves no uploader |
| RelayRequests.MetadataIsServed | glopfile-relay/src/api.rs:79-89 | Served at any time of any run, a client that asks is given the metadata the session was created with |
| RelayRequests.SocketOpens | glopfile-relay/src/session.rs:184-191 | Served, a websocket that opens is its side's and is sent what was held for it |
| RelayRequests.FrameIsRelayed | glopfile-relay/src/session.rs:193-197 | Served, a frame goes to the opposite side's websocket alone, or joins those held for it unless 64 are |
| RelayRequests.SocketCloses | glopfile-relay/src/session.rs:555-560 | Served, a websocket that closes is nobody's any more |
| RelayTheorems.SumsStayInRange | glopfile-relay/src/session.rs:454-456 | Every position sum the session computes next is at most the content's length, so `u64` addition cannot overflow |
| RelayTheorems.RunningIsConsistent | glopfile-relay/src/session.rs:416-434 | Every running session of the whole relay satisfies the session invariant |
| RelayTheorems.ExecKeepsInv | glopfile-relay/src/api.rs:203-234 | The whole relay's invariant (every token, every reply channel, the log, the content) survives any list of steps |
| RelayProgress.TransfersCanAlwaysComplete | glopfile-relay/src/session.rs:139-150 | No history can wedge a session: from every reachable state, serving the mailbox ends it or leaves it where a new download and one upload from where it stands, its body arriving in any pieces, are accepted and deliver the whole content |
| RelayEnding.TransfersCanAlwaysEnd | glopfile-relay/src/api.rs:103-158 | And it can be brought to its end: the client that joins gets its response, reads its body and lets go of it, by when it has read the whole content and the session is over |
| RelayProgress.OpenDownloadCanComplete | glopfile-relay/src/session.rs:395-412 | In every reachable idle state with a downloader connected that asked for a place within the content, the next undisturbed upload from its position, its body arriving in any pieces, is never refused, answers ok and completes that download; of one connected past the end nothing is said |
| RelayProgress.WholeUploadCompletes | glopfile-relay/src/api.rs:203-234 | An undisturbed upload, from post to response, with one round of read, send and answer for each piece of its body, gives the connected download everything from its start |
| RelayProgress.RoundsEnd | glopfile-relay/src/api.rs:217-234 | However many chunks an undisturbed upload still has to send, that many rounds of its loop end it in ok with the downloader at the end of the content |
| RelayUploads.UploadOkMeansDelivered | glopfile-relay/src/api.rs:223-228 | Over every run in which no downloader asks to finish, an upload answering ok means that a download took that very upload's last chunk, in the step that accepted it, and has been sent the content from its start to the very end |
| RelayUploads.UploadOkIsReal | glopfile-relay/src/api.rs:239-252 | In every reachable state an upload answering ok means so too, unless its own last call was answered that the download is finished |
| RelayUploads.FinishedNeedsEof | glopfile-relay/src/session.rs:379-393 | Nobody is told finished in a run in which no downloader asked for the end of the file |
| RelayResponses.ResponsesAreTrue | glopfile-relay/src/api.rs:239-252 | In every reachable state an upload that has its response was told what its last call was answered: ok exactly for an accepted last chunk or a finished download, a conflict exactly at the position it was sent to, not found exactly if it was told so or a session that is gone never answered, and an error naming its reason for the rest |
| RelayResponses.OrphansAreTold | glopfile-relay/src/session.rs:157-182 | An upload waiting for an answer from a session that is gone ends as not found |
| RelayUploads.AcceptedLastIsHanded | glopfile-relay/src/session.rs:458-465 | An upload's last chunk is accepted only in the step that hands that chunk, which is final, to a downloader |
| RelayUploads.StepHandsOver | glopfile-relay/src/session.rs:354-369 | A step that hands a chunk over puts the event, the progress ack and the acceptance of the call that sent the chunk on their channels in that order |
| RelayScript.UploadsFollowTheirScript | glopfile-relay/src/api.rs:203-234 | In every reachable state the call an upload waits on is the next one of the script that the request handler's loop was proved to make for its body |
| RelayServe.ServeKeepsInv | glopfile-relay/src/session.rs:309-345 | Serving the next command, whoever sent it, keeps the whole relay's invariant |
| RelayServe.HeadFits | glopfile-relay/src/session.rs:436-456 | The chunk about to be accepted is the content from the uploader's position, and the current uploader never meets a held chunk |
| RelayActions.PostUploadKeeps | glopfile-relay/src/api.rs:194-215 | A new upload request, parsed from a client's header, keeps the invariant |
| RelayActions.UploadAnsweredKeeps | glopfile-relay/src/api.rs:207-234 | So does an upload moving on with any answer |
| RelayActions.EndUploadKeeps | glopfile-relay/src/api.rs:260-269 | So does an upload ending or being dropped wherever it is, sending `Disconnected` last |
| RelayActions.GetContentKeeps | glopfile-relay/src/api.rs:91-116 | So does any download request, including the one that finishes the session |
| RelayActions.DownloadPolledKeeps | glopfile-relay/src/api.rs:119-132 | So does a download body reading its next event |
| RelayActions.EndDownloadKeeps | glopfile-relay/src/api.rs:142-158 | So does a download ending, which tells the session only if it was ever answered |
| UploadInvariant.ServingOwnKeeps | glopfile-relay/src/session.rs:395-494 | Serving an upload's own call moves it, its answer and its registered position together |
| UploadInvariant.ServingOtherKeeps | glopfile-relay/src/session.rs:309-345 | No other party's command disturbs an upload, except by answering its parked call or ending its registration |
| DownloadInvariant.ServingOtherKeeps | glopfile-relay/src/session.rs:347-476 | No other party's command makes a download's stream anything but the content from its start |
| DownloadInvariant.FinalReachesEnd | glopfile-relay/src/api.rs:125-128 | A stream that follows the content carries it to its very end by its final event |
| SessionInvariant.StepKeepsConsistent | glopfile-relay/src/session.rs:309-345 | Every command keeps the session invariant: positions agree or the queued error says where to resume; a held chunk excludes a connected downloader; not-found and data-pending are never queued, replaced only without an uploader, finished only with a finished slot and an uploader, a position only with an uploader and, if a downloader is connected, as its position; at most 64 frames are held, for an absent peer only; a finished session that runs has an uploader or a held chunk |
| SessionInvariant.ReachedIsConsistent | glopfile-relay/src/session.rs:298-307 | Every state a fresh session reaches while it runs is so |
| SessionInvariant.RunAppend | glopfile-relay/src/session.rs:298-303 | Serving two lists of commands is serving the second from where the first ended, unless the first stopped the session |
| SessionInvariant.FinishedCanLoseItsUploader | glopfile-relay/src/session.rs:379-404 | A concrete run in which a finished, running session has no uploader, and a downloader that then takes it out of finished |
| SessionTheorems.FinishedLosesUploader | glopfile-relay/src/session.rs:395-404 | A finished session that goes on loses its uploader in one step exactly by a start refused because a chunk is held elsewhere |
| SessionTheorems.FinishedIsLeft | glopfile-relay/src/session.rs:347-352 | Finished is left exactly when a downloader connects, which also drops a queued finished error |
| SessionTheorems.FinishTellsUploader | glopfile-relay/src/session.rs:379-393 | After a finish, and until another, a registered uploader hears of it exactly thus: with a chunk held, the session ends and it hears at once exactly if the chunk's waiter is its own; with none held, it hears at its next call exactly if no downloader and no uploader has started in between |
| SessionTheorems.FinishWaits | glopfile-relay/src/session.rs:347-412 | Over any run without the uploader's own commands or another finish, a queued finish stays queued for the registered uploader exactly if no downloader and no uploader starts |
| SessionTheorems.FinishCanBeForgotten | glopfile-relay/src/session.rs:354-359 | A concrete run in which a downloader connects after the finish, and the uploader's next call is accepted |
| SessionTheorems.FinishCanPassOver | glopfile-relay/src/session.rs:571-573 | A concrete run in which the session ends at the finish without a word to the uploader that has just taken over from the one whose chunk is held |
| SessionTheorems.HandoverPositionsAgree | glopfile-relay/src/session.rs:458-465 | Whenever a chunk goes straight through, the downloader stands where the uploader stands: the debug assertion never fires |
| SessionTheorems.DryRunAgrees | glopfile-relay/src/session.rs:150-155 | The dry run answers what the real start answers last, although the real start first evicts the current uploader, and the uploader is registered exactly when that answer accepts |
| SessionTheorems.RefusalsConverge | glopfile-relay/src/session.rs:395-434 | In every reached state, a refused start names a position, and starting there is accepted, in that state and in the one the refused start leaves |
| SessionLaws.StartsAreAnswered | glopfile-relay/src/session.rs:395-434 | Over every run, the last answer to a start and the answer to a dry run are the same: accepted exactly where the content goes on (at a connected downloader, right behind a held chunk, anywhere if there is neither), and otherwise the one position where it does |
| SessionLaws.UploaderIsRedirected | glopfile-relay/src/session.rs:371-374 | When a downloader connects, a registered uploader stays registered; its next call, after any run in which it does nothing and nobody starts or finishes, is refused with exactly where that downloader stands if it stood elsewhere, and otherwise goes ahead |
| SessionLaws.UploaderAfter | glopfile-relay/src/session.rs:395-412 | A registered uploader stops being one in a step exactly by a start, by its own leaving, or by a finish that meets a held chunk; a start registers its sender exactly where the content goes on |
| SessionLaws.UploaderStands | glopfile-relay/src/session.rs:454-456 | An uploader stands where it started and moves by exactly the chunks taken from it |
| SessionLaws.DownloaderAfter | glopfile-relay/src/session.rs:347-377 | The connected downloader is the last that started, until it leaves or somebody finishes |
| SessionLaws.DownloaderStands | glopfile-relay/src/session.rs:354-369 | A downloader stands where it asked, past a chunk it is handed there, and moves by exactly what it is handed |
| SessionLaws.FinishedAfter | glopfile-relay/src/session.rs:530-541 | The slot is finished exactly by a finish or a completed downloader's leaving, until a downloader connects |
| SessionLaws.LeavingDownloader | glopfile-relay/src/session.rs:531-541 | A downloader that leaves is gone, changes nothing else, and stops the session exactly if it completed |
| SessionLaws.LeftDownloaderHolds | glopfile-relay/src/session.rs:466-474 | Once a downloader has left without completing, and until another connects, no chunk is handed to anybody, and one accepted then is held, its call unanswered |
| SessionLaws.StopsExactly | glopfile-relay/src/session.rs:388-392 | A session stops exactly by a finish that leaves no uploader, a completed downloader's leaving, or an uploader's leaving after a finish |
| SessionLaws.FinishIsAnswered | glopfile-relay/src/session.rs:379-393 | A finish is answered, and stops the session exactly if it leaves no uploader |
| SessionLaws.HeldChunkAfter | glopfile-relay/src/session.rs:466-474 | A chunk is held exactly from being accepted with no downloader connected until one connects, with its own position, size and waiter |
| SessionLaws.QueuedErrorAfter | glopfile-relay/src/session.rs:567-577 | Exactly which error waits for the uploader after each step that does not stop the session |
| SessionLaws.SocketAfter | glopfile-relay/src/session.rs:555-560 | A side's websocket is the last that opened, until that one closes |
| SessionLaws.FramesGoToPeer | glopfile-relay/src/session.rs:505-518 | Frames are sent to nobody but the side's websocket of the moment |
| SessionLaws.ReplacedSocketIsTold | glopfile-relay/src/session.rs:500-502 | Exactly the websocket that another one replaces is told of it |
| SessionLaws.ClosedSocketHolds | glopfile-relay/src/session.rs:505-528 | Once a side's websocket has closed, and until another opens, its frames are all held in order, but for those that meet 64 |
| SessionLaws.StepDescribes | glopfile-relay/src/session.rs:311-313 | A step describes the session exactly when its command asks for it, on that reply channel, and leaves the metadata as it is |
| SessionLaws.DescribedAsCreated | glopfile-relay/src/session.rs:309-313 | Over every run a session describes itself by the metadata it was created with, and only when asked |
| SessionTheorems.HeldChunkWaits | glopfile-relay/src/session.rs:466-474 | A held chunk survives any run without a new downloader, uploader replacements and departures included, unchanged and undelivered |
| SessionTheorems.HeldChunkMeetsDownloader | glopfile-relay/src/session.rs:354-369 | After any such run, the first downloader to connect gets the chunk if it asks for exactly its position, and otherwise nobody does |
| SessionTheorems.ChunksAreConserved | glopfile-relay/src/session.rs:436-476 | Over every run, chunks held before plus chunks accepted are chunks delivered plus chunks discarded by a downloader connecting elsewhere plus chunks held after, counted with multiplicity |
| SessionTheorems.StaleTokensAreInert | glopfile-relay/src/session.rs:530-561 | Striking from a run every data, flush and disconnect of a token that no peer has any more, and that does not start again, leaves every other command served identically, message by message, and the same final state |
| RelayTokens.RetiredTokensAreInert | glopfile-relay/src/token.rs:7-11 | In the whole relay the token never starts again: once its start has been served and no peer has it, whatever the relay does, striking its commands from those served leaves every other one served identically and the same session |
| RelayTokens.ServedStartIsGone | glopfile-relay/src/token.rs:7-11 | Over every run of the relay, serving a token's start leaves no other start of it anywhere |
| RelayTokens.GoneStaysGone | glopfile-relay/src/token.rs:7-11 | And no later action brings one back, nor is the session ever served one |
| RelayTokens.ExecRuns | glopfile-relay/src/session.rs:298-307 | Whatever else goes on, the session of a relay run is the one that serving its commands in order reaches |
| SessionTheorems.StaleStepIsInert | glopfile-relay/src/session.rs:436-440 | Such a command changes nothing and is answered, if at all, with connection replaced |
| SessionTheorems.AckIsUploaderPosition | glopfile-relay/src/session.rs:620-629 | Every progress ack sent while an uploader is registered equals its position after the step |
| SessionTheorems.TenureAcksAscend | glopfile-relay/src/session.rs:361-363 | Within one uploader's tenure the acks never decrease and stay between its positions at the ends |
| SessionTheorems.FramesAreConserved | glopfile-relay/src/session.rs:496-528 | For each direction and run, frames handed over followed by frames held are the frames sent, in order, without exactly those that met 64 held |
| SessionSteps.StepConservesReplies | glopfile-relay/src/session.rs:613-617 | One step keeps the count of each reply channel: carried in or parked before, used or parked after |
| SessionSteps.StepAnswers | glopfile-relay/src/session.rs:567-577 | What each reply channel is answered by a step, parked waiters included, described without the effect list |
| SessionSteps.StepEvents | glopfile-relay/src/session.rs:354-369 | What each downloader is sent by a step, described without the effect list |
| SessionSteps.StepAcks | glopfile-relay/src/session.rs:620-629 | What progress a step acknowledges, described without the effect list |
| SessionSteps.StepFrames | glopfile-relay/src/session.rs:496-518 | What frames a step hands to each side, described without the effect list |
| SessionState.State.constructor | glopfile-relay/src/session.rs:102-117 | A fresh session, with nothing sent |
| SessionState.State.Run | glopfile-relay/src/session.rs:298-307 | Serving a mailbox reaches what serving the list of commands reaches, stopping at the first command that stops |
| SessionState.State.Handle | glopfile-relay/src/session.rs:309-345 | Each command reaches the state and messages of `Step`, and stops the session when `Step` does |
| SessionState.State.StartDownload | glopfile-relay/src/session.rs:347-377 | Connecting a downloader: the displaced one is told, a held chunk is handed over or refused, an uploader elsewhere is told where to resume |
| SessionState.State.DisplaceDownloader | glopfile-relay/src/session.rs:348-352 | The slot is replaced and exactly a connected predecessor is told |
| SessionState.State.ReleaseHeldChunk | glopfile-relay/src/session.rs:354-369 | The held chunk goes to the downloader that asked for it, then the ack, then its waiter's answer |
| SessionState.State.FinishDownload | glopfile-relay/src/session.rs:379-393 | Finishing ends the upload, and the session unless an uploader is still to leave |
| SessionState.State.StartUpload | glopfile-relay/src/session.rs:395-412 | An uploader takes over: the predecessor is ended, the position is checked, a queued error is cleared |
| SessionState.State.CheckStartPosition | glopfile-relay/src/session.rs:416-434 | A start is accepted only where the downloader, or the held chunk, continues |
| SessionState.State.UploadData | glopfile-relay/src/session.rs:436-476 | A chunk is refused, passed on, or held with its reply channel parked |
| SessionState.State.FlushUpload | glopfile-relay/src/session.rs:478-494 | A flush is answered at once, or parked in place of whoever waited |
| SessionState.State.StartWebsocket | glopfile-relay/src/session.rs:496-503 | Held frames go to the new peer in order, and the replaced peer is told |
| SessionState.State.RelayFrame | glopfile-relay/src/session.rs:505-518 | A frame goes to the opposite peer, or is held |
| SessionState.State.HoldFrame | glopfile-relay/src/session.rs:520-528 | A frame is held unless 64 are |
| SessionState.State.Disconnected | glopfile-relay/src/session.rs:530-563 | Only the current peer's departure has any effect; a completed downloader's, or an uploader's after a finish, stops the session |
| SessionState.State.TerminateUploader | glopfile-relay/src/session.rs:567-577 | The parked waiter is answered and the uploader dropped, or the error is queued |
| Api.Upload | glopfile-relay/src/api.rs:194-252 | An upload makes a prefix of its script, each call only once the previous was accepted, a broken body never sends its final chunk, and the response is ok exactly for an accepted end or a finished download, a conflict exactly at the position refused with, not found and the two errors exactly for those answers |
| Api.ChunkedKeepsBody | glopfile-relay/src/api.rs:217-228 | However a body is cut up, even an empty one, its chunks' data is the body, and exactly the last is final |
| Api.ChunkedIsPlan | glopfile-relay/src/api.rs:217-228 | Chunks of the content from a position are, in order, the rest of it, the final one reaching its end |
| Api.DownloadStream.ReadAll | glopfile-relay/src/api.rs:119-132 | Polled until it ends or must wait, a body yields exactly the bytes of its events up to the first final chunk or replacement, has completed exactly if that ended in a final chunk, and waits exactly when it has heard everything, without a final chunk, of a session that goes on |
| Api.HeardUpTo | glopfile-relay/src/api.rs:119-132 | What such a body hears is everything up to and with the first final chunk, everything before a replacement that comes first, and with neither all there is |
| DownloadBody.Poll | glopfile-relay/src/api.rs:119-158 | Each poll of a body, and its being dropped at its end, is the step the relay system takes with that download's record, down to the goodbye sent |
| DownloadBody.ReadBody | glopfile-relay/src/api.rs:91-158 | In every reachable state, a body that reads all it was sent is the content from where it asked, and says it completed only when that is all of the rest |
| Range.RangeRoundTrips | glopfile-relay/src/range.rs:17-38 | The relay reads from a downloader's printed range exactly its offset |
| Range.EofRoundTrips | glopfile-relay/src/range.rs:30-31 | `bytes=-0` is read as the end of the file |
| Range.ContentRangeRoundTrips | glopfile-relay/src/range.rs:43-66 | The relay reads from an uploader's printed content range exactly its position, up to and including the size |
| Range.ContentRangeReads | glopfile-relay/src/range.rs:58-65 | For any three numbers, a content range is accepted exactly when its size is its last byte plus one modulo 2^64, and its start is returned unchecked |
| Range.RangeIsRead | glopfile-relay/src/range.rs:17-38 | Exactly these range headers ask for a position: `bytes=`, a number below 2^64 that is that position, a dash, and only blanks, with no comma |
| Text.TrimStrips | glopfile-relay/src/range.rs:30 | Trimming takes exactly the blanks off both ends |
| Range.EofIsRead | glopfile-relay/src/range.rs:26-31 | Exactly these say the downloader has everything: nothing but blanks before the dash and a lone `0` behind it |
| Range.ContentRangeIsRead | glopfile-relay/src/range.rs:43-56 | No content range is read as the start; one is accepted exactly if it is a range and a size around a last slash that are |
| Range.SpecIsRead | glopfile-relay/src/range.rs:53-65 | A range and a size are accepted for a position exactly as a star with that size, or as that start and an end that is the last byte of the size |
| Range.AcceptedStartMayExceedSize | glopfile-relay/src/range.rs:58-65 | Three printed numbers are read as a position within the size exactly when the size is the last byte plus one modulo 2^64 and the start is no larger than the size, and `bytes 7-4/5` is read as 7 |
| ApiClient.UploadFile | rust-client/glopfile/src/api_client.rs:107-210 | Every turn stands where the last conflict pointed, never past the file, and sends the rest of the file exactly when the check let it; success is exactly a last turn answered ok, a position past the end is given up exactly there, and with replies left it gives up only on an error or a conflict at the same position |
| ApiClient.TakeTurn | rust-client/glopfile/src/api_client.rs:127-163 | One turn sends, exactly when the check is ok, a request an honest uploader sends from this position |
| RelaySystem.HonestIsRead | rust-client/glopfile/src/api_client.rs:133-138 | The relay reads from such a request the position it was made for |
| ApiClient.DecryptedFile.constructor | rust-client/glopfile/src/api_client.rs:251-268 | An empty file expecting the plaintext and 28 bytes more |
| ApiClient.DecryptedFile.PollWrite | rust-client/glopfile/src/api_client.rs:556-575 | Bytes are appended, or refused once decryption has begun |
| ApiClient.DecryptedFile.PollFlush | rust-client/glopfile/src/api_client.rs:577-622 | Decryption starts exactly when everything is here, is given it all, and starts only once; a failure leaves the file unusable |
| ApiClient.DecryptedFile.PollClose | rust-client/glopfile/src/api_client.rs:624-637 | Closing succeeds only on a completed file and fails on a short one, leaving it as it was |
| ApiClient.DecryptedFile.Flush | rust-client/glopfile/src/api_client.rs:577-622 | Flushing to the end leaves a short file alone and completes or breaks a whole one |
| ApiClient.TryDownload | rust-client/glopfile/src/api_client.rs:283-323 | One attempt asks for exactly what is missing, keeps all it received, and succeeds exactly when the response ended cleanly with the whole file held and written |
| ApiClient.DownloadContent | rust-client/glopfile/src/api_client.rs:270-326 | Over any failed and retried responses the file holds a prefix of the content, each range header resumes exactly there, and it succeeds exactly when a clean response completes the content, decrypted whole and once |
| PlaintextReader.UploadFile.PollRead | rust-client/glopfile/src/uploader_client/web.rs:169-210 | Bytes handed out followed by the stash are the file up to the offset, whatever buffers and pauses; zero bytes are reported exactly for an empty buffer, at the end, or when the read in flight asked for nothing |
| PlaintextReader.ZeroBeforeTheEnd | rust-client/glopfile/src/uploader_client/web.rs:174-192 | A file of one byte, polled with an empty buffer and then with a real one, reports zero bytes with nothing returned |
| PlaintextReader.UploadFile.TakeBytes | rust-client/glopfile/src/uploader_client/web.rs:174-194 | The next bytes are the stash, or what the finished read brings, which advances the offset |
| PlaintextReader.UploadFile.HandOut | rust-client/glopfile/src/uploader_client/web.rs:196-209 | The buffer is filled from the front and what does not fit is stashed |
| PlaintextReader.UploadFile.Read | rust-client/glopfile/src/cipher.rs:199-201 | Reading into a non-empty buffer returns nothing only once the whole file has been returned |
| PlaintextReader.ReadPlaintextToEnd | rust-client/glopfile/src/cipher.rs:189-205 | The gathered buffer is the nonce, the whole file and room for the tag, 28 bytes longer than the file |
| EndToEnd.NegotiatedIsHonest | rust-client/glopfile/src/api_client.rs:124-138 | Every content request of an upload negotiation is honest |
| EndToEnd.ClientRequestIsTaken | glopfile-relay/src/api.rs:200-221 | Such a request, however its body arrives, becomes an upload standing where the client stood with exactly the rest of the file to send |
| EndToEnd.UploadThroughRelay | rust-client/glopfile/src/api_client.rs:107-210 | If an upload whose requests a run of the relay answered reports success, a download took the last chunk of the upload its last request became and has been sent the file from its start to the end, unless that upload was told the download is finished; and always, if nobody asked to finish |
| Undisturbed.UploadUndisturbed | rust-client/glopfile/src/api_client.rs:107-210 | From every reachable state that is idle with a downloader connected that asked for a place within the file, a client nobody gets in the way of reports success after at most one conflict, its replies being those the relay gives, and the downloader has been sent the file from its start to the end |
| Undisturbed.AskingKeepsIdle | glopfile-relay/src/api.rs:179-192 | A check in such a state is answered with the downloader's position, or accepted there, and changes nothing |
| EndToEnd.ConflictIsAnOffer | rust-client/glopfile/src/api_client.rs:165-195 | In every reachable state the offset of a refusal is accepted there, and exceeds the file only if the connected downloader asked for it |
| EndToEnd.RelayDelivers | glopfile-relay/src/api.rs:103-139 | What a client reads of a relayed response, cut up and cut off anywhere, is the content from the offset it asked for |
| EndToEnd.RelayServes | rust-client/glopfile/src/api_client.rs:283-323 | So is any chain of responses, each asked for where the last one left off |
| EndToEnd.AskedInTurn | rust-client/glopfile/src/api_client.rs:284-288 | Of such a chain, each download was asked for with the range that resumes after everything before it |
| EndToEnd.DownloadThroughRelay | rust-client/glopfile/src/api_client.rs:270-326 | Through any reachable relay and any resumptions, each range header sent is the one the relay answered, what the client holds is a prefix of the uploaded content and what it decrypts is all of it, at most once |
| EndToEnd.CompletedBodyIsEnough | glopfile-relay/src/api.rs:120-128 | A relayed body that completed, read to its end, leaves the client with everything |
| Window.NextDataRequest | rust-client/glopfile/src/downloader_client.rs:430-446 | There is a next request exactly when the file and the window have room; it starts where asking stopped and is for 16 KiB or for all that the 10 MiB window or the file still allows |
| Window.RequestsTile | rust-client/glopfile/src/downloader_client.rs:411-418 | The request loop ends with the window full or everything asked for, its requests end to end without a hole |
| Window.RequestsAreLongest | rust-client/glopfile/src/downloader_client.rs:430-446 | Every request of the loop but the last is for 16 KiB, so their number is the least that covers the window: what is left of it divided by 16 KiB, rounded up |
| Window.AskingFlows | rust-client/glopfile/src/downloader_client.rs:406-428 | Asking for more keeps requests and responses in flight covering exactly what is asked for and not received |
| Window.UploaderTurnKeeps | rust-client/glopfile/src/uploader_client.rs:308-348 | Every request the uploader meets is within its file, so serving never fails, and the invariant holds after it |
| Window.ResponseIsNext | rust-client/glopfile/src/downloader_client.rs:384-395 | Every response arrives exactly at the received offset and extends the received prefix |
| Window.DownloaderTurnKeeps | rust-client/glopfile/src/downloader_client.rs:329-344 | Every message leaves the invariant, and only a failing write fails the transfer |
| Window.NeverStuck | rust-client/glopfile/src/downloader_client.rs:406-428 | A transfer that is not over has a message in flight for one side to take |
| Window.TurnWorks | rust-client/glopfile/src/downloader_client.rs:375-446 | Every turn of either side strictly decreases the work left |
| Window.PlayKeeps | rust-client/glopfile/src/downloader_client.rs:375-446 | Over any schedule the invariant holds, turns are bounded by the work, and only a failing write fails |
| Window.TransferDelivers | rust-client/glopfile/src/downloader_client.rs:406-446 | However the two ends' turns interleave: received <= requested <= total, at most 10 MiB in flight, requests tile what was asked, at most three turns a byte plus four, and with no turn left both ends have finished and the downloader holds exactly the uploader's bytes |
| PeerDownload.DownloadState.RequestDataOrFinish | rust-client/glopfile/src/downloader_client.rs:406-428 | The downloader's object asks, finishes or fails as the model's end does, and a finish has decrypted and written what was received exactly if that has the expected length |
| PeerDownload.DownloadState.AskForMore | rust-client/glopfile/src/downloader_client.rs:411-418 | The loop terminates and sends exactly the specified requests |
| PeerDownload.DownloadState.HandleUploaderMessage | rust-client/glopfile/src/downloader_client.rs:375-404 | A response at the received offset is kept, one elsewhere is ignored, anything else changes nothing |
| PeerDownload.DownloadState.DataChannelMessage | rust-client/glopfile/src/downloader_client.rs:329-373 | While connecting and afterwards, one message has the effect the model gives it, and what is decrypted is the content |
| PeerDownload.DownloadState.DataChannelOpened | rust-client/glopfile/src/downloader_client.rs:321-327 | The opened channel is sent a hello |
| PeerDownload.FinishedUnwritten | rust-client/glopfile/src/downloader_client.rs:419-426 | Given more than is missing, a transfer finishes and says so with nothing decrypted |
| PeerDownload.Transfer | rust-client/glopfile/src/downloader_client.rs:318-446 | Driven through any possible order of turns, the downloader's object ends as the model's downloader does, never decrypts anything but the content, and has decrypted it, once, when the transfer has finished or no turn is left |

## Left out

- RelayTheorems.DownloadsAreByteExact: assumes that all uploaders hold the same content and send honest requests, as clients do; an uploader that lies in its body is not modelled.
- RelayProgress.TransfersCanAlwaysComplete: says that completion stays possible, not that any schedule brings it about; nothing makes clients act.
- RelayUploads.UploadOkIsReal: for an upload told finished, that the download really was finished is the word of the downloader that said so.
- ApiClient.UploadFile: which errors are retried, the backoff between attempts and timeouts are not modelled; at each such error the loop may go on or give up.
- ApiClient.DownloadContent: a response is the pieces it delivered and whether it ended cleanly; timeouts and status errors are responses that delivered nothing more.
- Window.TransferDelivers: covers one uninterrupted peer channel with no bytes arriving by relay meanwhile; the source does not bring `requested_offset` up to date when it falls back.
- Range.ContentRangeReads: the sum `end + 1` wraps as in a release build; a debug build panics instead.
- PlaintextReader.UploadFile.PollRead: failing reads of a browser file are not modelled.
- Encryption: only its layout is modelled, 12 bytes in front and 16 behind; AES-GCM, HKDF and keys are foreign code.
- Encoding: protobuf messages, padding, base64 ids and JSON bodies; a progress ack is its offset.
- Peer connections: WebRTC, ICE, SDP, and the fallback between peer and relay; the data channel is an ordered, reliable queue.
- Session websockets: the read and write loop, pings and idle timeouts; a websocket is an open, any frames, and a close.
- Plumbing: HTTP routing, CORS, the registry and its lock, random ids; a request to a session that has ended is answered not found.
- Upload request timeouts, progress reports to the user, logging, and the user interfaces.
- Downloads dropped before they are answered: the source then leaves a downloader connected that nobody reads; the model does the same, and such a slot is freed by the next downloader or by finishing.
