// What the relay promises over every run: of any number of uploads, downloads and websockets
// taking their steps in any order.

module RelayTheorems {
  import opened Base
  import opened RelaySession
  import opened Effects
  import opened SessionSteps
  import opened SessionInvariant
  import opened Api
  import opened RelaySystem
  import UI = UploadInvariant
  import DI = DownloadInvariant
  import opened RelayInvariant
  import opened RelayServe
  import opened RelayActions
  import Range

  lemma ApplyKeepsInv(content: Bytes, s: System, action: Action)
    requires |content| < U64_LIMIT && Inv(content, s)
    ensures Inv(content, Apply(content, s, action))
  {
    hide Inv, Range.UploadPositionOf, Range.DownloadPositionOf;
    match action
    case PostUpload(request, pieces) => PostUploadKeeps(content, s, request, pieces);
    case UploadAnswered(token) => UploadAnsweredKeeps(content, s, token);
    case UploadBodyReady(token) => UploadBodyReadyKeeps(content, s, token);
    case UploadDropped(token) => if LiveUpload(s, token) { EndUploadKeeps(content, s, token, None); }
    case GetContent(range) => GetContentKeeps(content, s, range);
    case DownloadAnswered(token) => DownloadAnsweredKeeps(content, s, token);
    case DownloadPolled(token) => DownloadPolledKeeps(content, s, token);
    case DownloadDropped(token) =>
      if token in s.downloads && !s.downloads[token].phase.Over() { EndDownloadKeeps(content, s, token); }
    case PostStart(position) =>
      BystanderKeepsInv(content, s, s.(nextToken := s.nextToken + 1),
                        CheckStartUpload(position, Reply(s.nextToken, 0)));
    case GetMetadata =>
      BystanderKeepsInv(content, s, s.(nextToken := s.nextToken + 1), Metadata(Reply(s.nextToken, 0)));
    case OpenSocket(direction) => OpenSocketKeeps(content, s, direction);
    case SocketFrame(token, frame) =>
      if token in s.sockets { SocketKeeps(content, s, s, WebsocketData(s.sockets[token], frame), token); }
    case CloseSocket(token) =>
      if token in s.sockets {
        SocketKeeps(content, s, s.(sockets := s.sockets - {token}),
                    Command.Disconnected(token, Websocket(s.sockets[token])), token);
      }
    case Serve => if s.running && s.mailbox != [] { ServeKeepsInv(content, s); }
  }

  lemma {:induction false} ExecKeepsInv(content: Bytes, s: System, actions: seq<Action>)
    requires |content| < U64_LIMIT && Inv(content, s)
    ensures Inv(content, Exec(content, s, actions))
    decreases |actions|
  {
    hide Inv, Apply;
    if actions != [] {
      ApplyKeepsInv(content, s, actions[0]);
      ExecKeepsInv(content, Apply(content, s, actions[0]), actions[1..]);
    }
  }

  /** A state the relay can get into while content is being transferred through it. */
  ghost predicate Reachable(content: Bytes, s: System) {
    exists metadata: string, actions: seq<Action> :: s == Exec(content, Start(metadata), actions)
  }

  lemma ReachableIsInv(content: Bytes, s: System)
    requires |content| < U64_LIMIT && Reachable(content, s)
    ensures Inv(content, s)
  {
    hide Inv, Exec;
    var metadata: string, actions: seq<Action> :| s == Exec(content, Start(metadata), actions);
    StartIsInv(content, metadata);
    ExecKeepsInv(content, Start(metadata), actions);
  }

  // ----- Bytes -----

  /** `bytes` is what the content has from `position` on, as far as it goes; past the end of
      the content it is nothing. */
  predicate StretchOf(content: Bytes, position: Position, bytes: Bytes) {
    if position <= |content| then
      position + |bytes| <= |content| && bytes == content[position..position + |bytes|]
    else bytes == []
  }

  lemma FollowsIsStretch(content: Bytes, position: Position, events: seq<DownloadEvent>)
    requires DI.Follows(content, position, events)
    ensures StretchOf(content, position, Carried(events))
  {
    if position <= |content| {
      DI.FollowsCarries(content, position, events);
    } else {
      DI.FollowsPastEnd(content, position, events);
    }
  }

  /** Whatever uploaders and downloaders came, went and replaced each other, each download was
      sent, and has read, exactly the content from where its range header asked: no gap, no
      repeat, no reordering. While it is connected, the session knows precisely how far. */
  lemma DownloadsAreByteExact(content: Bytes, s: System, token: Token)
    requires |content| < U64_LIMIT && Reachable(content, s) && token in s.downloads
    ensures
      var d, events := s.downloads[token], EventsTo(s.log, token);
      && Range.DownloadPositionOf(d.range) == Success(Range.At(d.start))
      && StretchOf(content, d.start, Carried(events))
      && d.taken <= |events| && StretchOf(content, d.start, Carried(events[..d.taken]))
      && (s.running && s.session.IsDownloader(token) ==> s.session.downloader.position == d.start + |Carried(events)|)
  {
    hide Exec, Reachable;
    ReachableIsInv(content, s);
    var d, events := s.downloads[token], EventsTo(s.log, token);
    assert DownloadLogOk(content, s, token);
    FollowsIsStretch(content, d.start, events);
    DI.FollowsPrefix(content, d.start, events, d.taken);
    FollowsIsStretch(content, d.start, events[..d.taken]);
    if s.running {
      assert TokenOk(content, s, token);
    }
  }

  /** A download request that is still open, and that the session has served, is either the
      connected downloader or has been told it was replaced: none is left hanging. */
  lemma OpenDownloadsAreServed(content: Bytes, s: System, token: Token)
    requires |content| < U64_LIMIT && Reachable(content, s) && s.running
    requires token in s.downloads && s.downloads[token].phase.Streaming?
    ensures s.session.IsDownloader(token) || DownloadEvent.ConnectionReplaced in EventsTo(s.log, token)
  {
    hide Exec, Reachable;
    ReachableIsInv(content, s);
    assert TokenOk(content, s, token);
  }

  /** Every sum the session computes for its next command is at most the content's length. */
  lemma SumsStayInRange(content: Bytes, s: System)
    requires |content| < U64_LIMIT && Reachable(content, s) && s.running
    ensures
      var session := s.session;
      && (session.pending.Data? ==> session.pending.position + session.pending.size <= |content|)
      && (s.mailbox != [] && Accepts(session, s.mailbox[0]) ==>
            session.uploader.value.position + s.mailbox[0].chunk.Len() <= |content|)
  {
    hide Exec, Reachable, TokenOk;
    ReachableIsInv(content, s);
    if s.mailbox != [] { HeadFits(content, s); }
  }

  // ----- Requests -----

  /** Every reply channel ever issued is, while the session runs, in exactly one place: in the
      mailbox, parked with the held chunk, or used, once. */
  lemma RepliesAreAccountedFor(content: Bytes, s: System, reply: Reply)
    requires |content| < U64_LIMIT && Reachable(content, s) && s.running
    ensures InMailbox(s.mailbox, reply) + Parked(s.session, reply) + |Project(s.log, UseOf(reply))|
         == if reply in s.issued then 1 else 0
  {
    hide Exec, Reachable;
    ReachableIsInv(content, s);
    assert Balanced(s, reply);
  }

  /** An upload request that waits for the session. */
  predicate Waits(s: System, token: Token) {
    token in s.uploads && s.uploads[token].alive && s.uploads[token].calls >= 1 && s.uploads[token].pc != Reading
  }

  lemma WaitingCallIsSomewhere(content: Bytes, s: System, token: Token)
    requires Inv(content, s) && s.running && Waits(s, token)
    ensures
      var reply := LastReply(token, s.uploads[token]);
      InMailbox(s.mailbox, reply) + Parked(s.session, reply) + |AnswersTo(s.log, reply)| == 1
  {
    var h := s.uploads[token];
    var reply := LastReply(token, h);
    assert TokenOk(content, s, token) && Balanced(s, reply);
    AnswersAreUses(s.log, reply);
    if UI.Queued(token, h, FromSender(s.mailbox, token)) {
      QueuedIsInMailbox(s.mailbox, token, reply);
    }
  }

  /** No live request is ever lost: while the session runs, the call it waits on is in the
      mailbox, parked, or answered, and in exactly one of these. A reply channel dropped
      unanswered is one that no live request waits on. */
  lemma LiveRequestsAreNeverLost(content: Bytes, s: System, token: Token)
    requires |content| < U64_LIMIT && Reachable(content, s) && s.running && Waits(s, token)
    ensures
      var reply := LastReply(token, s.uploads[token]);
      && InMailbox(s.mailbox, reply) + Parked(s.session, reply) + |AnswersTo(s.log, reply)| == 1
      && Abandon(reply) !in s.log
  {
    hide Exec, Reachable, TokenOk;
    ReachableIsInv(content, s);
    WaitingCallIsSomewhere(content, s, token);
    var reply := LastReply(token, s.uploads[token]);
    assert Balanced(s, reply);
    AbandonIsAnotherUse(s.log, reply);
  }

  /** A dropped reply channel counts as a use, but not as an answer. */
  lemma {:induction false} AbandonIsAnotherUse(log: seq<Effect>, reply: Reply)
    ensures |AnswersTo(log, reply)| <= |Project(log, UseOf(reply))|
    ensures Abandon(reply) in log ==> |AnswersTo(log, reply)| < |Project(log, UseOf(reply))|
  {
    if log != [] {
      AbandonIsAnotherUse(log[1..], reply);
      assert log == [log[0]] + log[1..];
    }
  }

  // ----- Errors -----

  /** The states of a running session are consistent: positions agree, a held chunk excludes a
      connected downloader, and a queued error is one that fits. */
  lemma RunningIsConsistent(content: Bytes, s: System)
    requires |content| < U64_LIMIT && Reachable(content, s) && s.running
    ensures Consistent(s.session)
  {
    hide Exec, Reachable;
    ReachableIsInv(content, s);
  }

  /** No request has been answered with `error`. */
  ghost predicate NeverTold(s: System, error: UploadError) {
    forall reply: Reply :: Refused(error) !in AnswersTo(s.log, reply)
  }

  ghost predicate NeverPending(s: System) {
    && NeverTold(s, DataPending)
    && (forall token <- s.uploads :: s.uploads[token].response != Some(Response.Error("data_pending")))
  }

  lemma StepNeverPending(s: Session, command: Command, reply: Reply)
    requires Consistent(s)
    requires command.UploadData? && s.IsUploader(command.token) ==> !s.pending.Data?
    ensures Refused(DataPending) !in Answers(s, command, reply)
  {
  }

  /** Only serving adds to the log. */
  lemma ApplyLog(content: Bytes, s: System, action: Action)
    ensures Apply(content, s, action).log
         == if action.Serve? && s.running && s.mailbox != [] then OnServe(s).log else s.log
  {
    hide Range.UploadPositionOf, Range.DownloadPositionOf, Step, Honest, Concat, Project;
  }

  /** The request ended, on this answer. */
  predicate EndedOn(h: UploadHandler, answer: UploadResult, response: Option<Response>) {
    match answer
    case Accepted => h.pc == Sending && |h.chunks| == 1 && response == Some(Ok)
    case Refused(error) => response == Some(UploadErrorResponse(error))
  }

  lemma AnswerResponse(s: System, token: Token, answer: UploadResult)
    requires LiveUpload(s, token) && s.uploads[token].pc != Reading
    ensures
      var was, t := s.uploads[token], OnUploadAnswer(s, token, s.uploads[token], answer);
      && token in t.uploads
      && (forall u <- t.uploads :: u != token ==> u in s.uploads && t.uploads[u] == s.uploads[u])
      && (t.uploads[token].response == was.response || EndedOn(was, answer, t.uploads[token].response))
  {
  }

  /** An upload request's response is fixed by the answer it ends on. */
  lemma ApplyResponse(content: Bytes, s: System, action: Action, token: Token)
    requires Inv(content, s) && token in Apply(content, s, action).uploads
    requires Apply(content, s, action).uploads[token].response.Some?
    ensures
      var response := Apply(content, s, action).uploads[token].response;
      && token in s.uploads
      && (s.uploads[token].response == response
          || (s.uploads[token].calls >= 1
              && AnswerFor(s, LastReply(token, s.uploads[token])).Some?
              && EndedOn(s.uploads[token], AnswerFor(s, LastReply(token, s.uploads[token])).value, response)))
  {
    hide Range.UploadPositionOf, Range.DownloadPositionOf, Inv, OnUploadAnswer, OnServe, OnDownloadEvent;
    if action.UploadAnswered? && LiveUpload(s, action.token) && s.uploads[action.token].pc != Reading {
      var answer := AnswerFor(s, LastReply(action.token, s.uploads[action.token]));
      if answer.Some? { AnswerResponse(s, action.token, answer.value); }
    } else if action.Serve? && s.running && s.mailbox != [] {
      assert OnServe(s).uploads == s.uploads by { ServeLeavesHandlers(s); }
    } else if action.DownloadPolled? && action.token in s.downloads {
      EventLeavesUploads(s, action.token);
    }
  }

  lemma ServeLeavesHandlers(s: System)
    requires s.running && s.mailbox != []
    ensures OnServe(s).uploads == s.uploads && OnServe(s).downloads == s.downloads
  {
    hide Step;
  }

  lemma EventLeavesUploads(s: System, token: Token)
    requires token in s.downloads
    ensures forall event :: OnDownloadEvent(s, token, s.downloads[token], event).uploads == s.uploads
  {
  }

  lemma EndLeavesUploads(s: System, token: Token)
    requires token in s.downloads
    ensures EndDownload(s, token, s.downloads[token]).uploads == s.uploads
  {
  }

  lemma ApplyNeverPending(content: Bytes, s: System, action: Action)
    requires Inv(content, s) && NeverPending(s)
    ensures NeverPending(Apply(content, s, action))
  {
    hide Apply, TokenOk, DownloadLogOk, IssuedFits, LogFits, TokensFit, Step;
    var t := Apply(content, s, action);
    ApplyLog(content, s, action);
    forall reply: Reply ensures Refused(DataPending) !in AnswersTo(t.log, reply) {
      if t.log != s.log {
        ServeReads(s, 0, reply);
        HeadFits(content, s);
        StepNeverPending(s.session, s.mailbox[0], reply);
      }
    }
    forall token | token in t.uploads ensures t.uploads[token].response != Some(Response.Error("data_pending")) {
      if t.uploads[token].response.Some? {
        ApplyResponse(content, s, action, token);
        if s.uploads[token].calls >= 1 {
          AnswerIsInLog(s, LastReply(token, s.uploads[token]));
        }
      }
    }
  }

  lemma AnswerIsInLog(s: System, reply: Reply)
    ensures AnswerFor(s, reply).Some? ==>
      AnswerFor(s, reply).value in AnswersTo(s.log, reply) || AnswerFor(s, reply).value == Refused(NotFound)
  {
  }

  lemma {:induction false} ExecNeverPending(content: Bytes, s: System, actions: seq<Action>)
    requires |content| < U64_LIMIT && Inv(content, s) && NeverPending(s)
    ensures NeverPending(Exec(content, s, actions))
    decreases |actions|
  {
    hide Inv, Apply, NeverPending;
    if actions != [] {
      ApplyKeepsInv(content, s, actions[0]);
      ApplyNeverPending(content, s, actions[0]);
      ExecNeverPending(content, Apply(content, s, actions[0]), actions[1..]);
    }
  }

  /** The session never finds a chunk held when the current uploader sends one: nobody is ever
      told that data is pending. */
  lemma DataIsNeverPending(content: Bytes, s: System)
    requires |content| < U64_LIMIT && Reachable(content, s)
    ensures NeverPending(s)
  {
    hide Inv, Exec, NeverPending;
    var metadata: string, actions: seq<Action> :| s == Exec(content, Start(metadata), actions);
    StartIsInv(content, metadata);
    assert NeverPending(Start(metadata)) by { StartNeverPending(metadata); }
    ExecNeverPending(content, Start(metadata), actions);
  }

  lemma StartNeverPending(metadata: string)
    ensures NeverPending(Start(metadata))
  {
  }

  // ----- Completion -----

  /** When a session stops because a download completed, that download was sent, and read, all
      of the content from its start, nothing is held, and no upload request is parked. */
  lemma CompletionIsReal(content: Bytes, s: System)
    requires |content| < U64_LIMIT && Reachable(content, s)
    requires s.running && s.mailbox != [] && !OnServe(s).running
    requires s.mailbox[0].Disconnected? && s.mailbox[0].peer.Downloader?
    ensures
      var token := s.mailbox[0].token;
      && token in s.downloads
      && (var d, events := s.downloads[token], EventsTo(s.log, token);
          && d.start <= |content| && d.taken <= |events|
          && Carried(events) == content[d.start..]
          && Carried(events[..d.taken]) == content[d.start..])
      && !s.session.pending.Data?
      && (forall reply: Reply :: Parked(s.session, reply) == 0)
  {
    hide Exec, Reachable, IssuedFits, LogFits, DI.DownloadOk, DownloadLogOk, UploadTokenOk;
    ReachableIsInv(content, s);
    var head := s.mailbox[0];
    assert TokenOk(content, s, head.token);
    HeadIsQueued(s, head.token);
    CompletedHasAll(content, head.token, s.downloads[head.token], FromSender(s.mailbox, head.token), s.session,
                    EventsTo(s.log, head.token));
  }

  lemma CompletedHasAll(content: Bytes, token: Token, d: DownloadHandler, queue: seq<Command>, s: Session,
                        events: seq<DownloadEvent>)
    requires DI.DownloadOk(content, token, d, queue, s, events)
    requires queue != [] && queue[0] == Command.Disconnected(token, Downloader(true))
    ensures d.start <= |content| && d.taken <= |events|
    ensures Carried(events) == content[d.start..] && Carried(events[..d.taken]) == content[d.start..]
  {
    hide DI.Follows, Carried;
    DI.FinalReachesEnd(content, d.start, events, d.taken - 1);
    DI.FollowsCarries(content, d.start, events);
    CarriedGrows(events, d.taken);
  }

  lemma {:induction false} CarriedGrows(events: seq<DownloadEvent>, n: nat)
    requires n <= |events|
    ensures |Carried(events[..n])| <= |Carried(events)|
  {
    if n > 0 {
      assert events[..n][1..] == events[1..][..n - 1];
      CarriedGrows(events[1..], n - 1);
    }
  }
}
