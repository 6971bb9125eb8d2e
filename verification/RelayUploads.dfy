// What an upload request's success means.

module RelayUploads {
  import opened Base
  import opened RelaySession
  import opened Effects
  import opened SessionSteps
  import opened SessionInvariant
  import opened Api
  import opened RelaySystem
  import DI = DownloadInvariant
  import opened RelayInvariant
  import opened RelayServe
  import opened RelayActions
  import opened RelayTheorems
  import Range

  predicate HasFinal(events: seq<DownloadEvent>) {
    exists i :: 0 <= i < |events| && events[i].Final?
  }

  /** A log in which one step hands an event to a download, acknowledges progress to whoever
      watches it, and accepts the call that sent it. */
  function Handover(before: seq<Effect>, download: Token, event: DownloadEvent, watcher: Option<Token>,
                    position: Position, reply: Reply, after: seq<Effect>): seq<Effect>
  {
    before + [Event(download, event)] + Progress(watcher, position) + [Answer(reply, Accepted)] + after
  }

  /** The call on this reply channel was accepted as its event was handed to the download. */
  ghost predicate HandedOver(log: seq<Effect>, download: Token, event: DownloadEvent, reply: Reply) {
    exists before, watcher, position, after :: log == Handover(before, download, event, watcher, position, reply, after)
  }

  /** The request's own last chunk, which is final, was handed to this download, and that is
      what its last call was accepted for. */
  ghost predicate TookLast(s: System, token: Token, download: Token)
    requires token in s.uploads
  {
    var h := s.uploads[token];
    && h.calls >= 1 && h.chunks != [] && h.chunks[0].Final? && download in s.downloads
    && HandedOver(s.log, download, h.chunks[0].IntoEvent(), LastReply(token, h))
  }

  ghost predicate LastTaken(s: System, token: Token)
    requires token in s.uploads
  {
    exists download :: TookLast(s, token, download)
  }

  /** The answer this request's last call got is that the download is finished. */
  ghost predicate ToldFinished(s: System, token: Token)
    requires token in s.uploads
  {
    var h := s.uploads[token];
    h.calls >= 1 && Refused(UploadError.Finished) in AnswersTo(s.log, LastReply(token, h))
  }

  /** The request's last call sends the last chunk. */
  predicate SentLast(h: UploadHandler) {
    h.pc == Sending && |h.chunks| == 1 && h.calls >= 1
  }

  ghost predicate UploadHonest(s: System, token: Token)
    requires token in s.uploads
  {
    var h := s.uploads[token];
    && (h.response == Some(Ok) ==> LastTaken(s, token) || ToldFinished(s, token))
    && (h.response.Some? ==> !h.alive)
    && (SentLast(h) && Accepted in AnswersTo(s.log, LastReply(token, h)) ==> LastTaken(s, token))
  }

  ghost predicate UploadsHonest(s: System) {
    forall token <- s.uploads :: UploadHonest(s, token)
  }

  /** A step that hands a chunk over and accepts a call accepts the call that sent it. */
  lemma StepHandsOver(s: Session, command: Command, reply: Reply)
    requires Handed(s, command).Some?
    requires if command.StartDownload? then s.pending.waiter == Some(reply)
             else command.UploadData? && command.reply == reply
    ensures
      var handed := Handed(s, command).value;
      HandedOver(Step(s, command).effects, handed.0, handed.1.IntoEvent(), reply)
  {
    var download, event := Handed(s, command).value.0, Handed(s, command).value.1.IntoEvent();
    match command
    case StartDownload(token, position, done) =>
      var end := position + s.pending.size;
      assert Step(s, command).effects
          == Handover(Replaced(s.downloader), download, event, s.uploaderWs, end, reply, [Done(done)]);
    case UploadData(token, chunk, _) =>
      var end := s.uploader.value.position + chunk.Len();
      assert Step(s, command).effects == Handover([], download, event, s.uploaderWs, end, reply, []);
  }

  /** What was handed over stays so as the log grows, at either end. */
  lemma HandedOverGrows(a: seq<Effect>, log: seq<Effect>, b: seq<Effect>, download: Token, event: DownloadEvent,
                        reply: Reply)
    requires HandedOver(log, download, event, reply)
    ensures HandedOver(a + log + b, download, event, reply)
  {
    var before, watcher, position, after :| log == Handover(before, download, event, watcher, position, reply, after);
    assert a + log + b == Handover(a + before, download, event, watcher, position, reply, after + b);
  }

  /** The download has been sent the event. */
  lemma HandedOverIsSent(log: seq<Effect>, download: Token, event: DownloadEvent, reply: Reply)
    requires HandedOver(log, download, event, reply)
    ensures event in EventsTo(log, download)
  {
    var before, watcher, position, after :| log == Handover(before, download, event, watcher, position, reply, after);
    var rest := Progress(watcher, position) + [Answer(reply, Accepted)] + after;
    assert log == before + ([Event(download, event)] + rest);
    ProjectAppend(before, [Event(download, event)] + rest, EventTo(download));
    ProjectAppend([Event(download, event)], rest, EventTo(download));
    ProjectOne(Event(download, event), EventTo(download));
  }

  lemma EventfulIsDownload(content: Bytes, s: System, token: Token)
    requires Inv(content, s) && EventsTo(s.log, token) != []
    ensures token in s.downloads
  {
    hide Running, TokensFit, IssuedFits;
  }

  /** An upload's last chunk is accepted only in the step that hands that chunk to a downloader. */
  lemma AcceptedLastIsHanded(content: Bytes, s: System, token: Token)
    requires Inv(content, s) && s.running && s.mailbox != []
    requires token in s.uploads && SentLast(s.uploads[token])
    requires Accepted in Answers(s.session, s.mailbox[0], LastReply(token, s.uploads[token]))
    ensures
      var h, handed := s.uploads[token], Handed(s.session, s.mailbox[0]);
      && handed.Some? && handed.value.1 == h.chunks[0] && h.chunks[0].Final?
      && if s.mailbox[0].StartDownload? then s.session.pending.waiter == Some(LastReply(token, h))
         else s.mailbox[0].UploadData? && s.mailbox[0].reply == LastReply(token, h)
  {
    hide TokensFit, IssuedFits, LogFits, Step;
    var h, head := s.uploads[token], s.mailbox[0];
    UploadKnown(content, s, token);
    assert head in s.mailbox && Tagged(head);
    HeadIsQueued(s, token);
    assert h.chunks[0].Final?;
  }

  lemma AcceptedLastIsTaken(content: Bytes, s: System, token: Token)
    requires Inv(content, s) && s.running && s.mailbox != []
    requires token in s.uploads && SentLast(s.uploads[token])
    requires Accepted in Answers(s.session, s.mailbox[0], LastReply(token, s.uploads[token]))
    ensures token in OnServe(s).uploads && LastTaken(OnServe(s), token)
  {
    hide Inv, Step, Answers, Delivers, Handed, HandedOver;
    var h, head := s.uploads[token], s.mailbox[0];
    AcceptedLastIsHanded(content, s, token);
    var download, event := Handed(s.session, head).value.0, h.chunks[0].IntoEvent();
    StepHandsOver(s.session, head, LastReply(token, h));
    var effects := Step(s.session, head).effects;
    HandedOverGrows(s.log, effects, [], download, event, LastReply(token, h));
    assert s.log + effects + [] == OnServe(s).log;
    HandedOverIsSent(OnServe(s).log, download, event, LastReply(token, h));
    ServeKeepsInv(content, s);
    EventfulIsDownload(content, OnServe(s), download);
    assert TookLast(OnServe(s), token, download);
  }

  lemma ServeKeepsUploadHonest(content: Bytes, s: System, token: Token)
    requires Inv(content, s) && s.running && s.mailbox != []
    requires token in s.uploads && UploadHonest(s, token)
    ensures UploadHonest(OnServe(s), token)
  {
    hide Inv, Step, Answers, Delivers, Handed;
    var h := s.uploads[token];
    ApplyServe(content, s);
    TakenStays(content, s, Serve, token);
    if h.calls >= 1 {
      var reply := LastReply(token, h);
      ServeReads(s, 0, reply);
      if SentLast(h) && Accepted in Answers(s.session, s.mailbox[0], reply) {
        AcceptedLastIsTaken(content, s, token);
      }
    }
  }

  /** Who took the last chunk stays so, while the request's record keeps naming it. */
  lemma TakenStays(content: Bytes, s: System, action: Action, token: Token)
    requires token in s.uploads && token in Apply(content, s, action).uploads
    requires SameLast(s.uploads[token], Apply(content, s, action).uploads[token])
    ensures LastTaken(s, token) ==> LastTaken(Apply(content, s, action), token)
  {
    hide Step, Apply, HandedOver;
    var t := Apply(content, s, action);
    LogGrows(content, s, action);
    var more := t.log[|s.log|..];
    if LastTaken(s, token) {
      var h := s.uploads[token];
      var download :| TookLast(s, token, download);
      HandedOverGrows([], s.log, more, download, h.chunks[0].IntoEvent(), LastReply(token, h));
      assert [] + s.log + more == t.log;
      assert TookLast(t, token, download);
    }
  }

  /** The same last call, with the same chunks. */
  predicate SameLast(h: UploadHandler, k: UploadHandler) {
    h.calls == k.calls && h.chunks == k.chunks && h.pc == k.pc
  }

  lemma LogGrows(content: Bytes, s: System, action: Action)
    ensures s.log <= Apply(content, s, action).log
    ensures s.downloads.Keys <= Apply(content, s, action).downloads.Keys
  {
    hide Step, Apply;
    ApplyLog(content, s, action);
    DownloadsGrow(content, s, action);
  }

  lemma DownloadsGrow(content: Bytes, s: System, action: Action)
    ensures s.downloads.Keys <= Apply(content, s, action).downloads.Keys
  {
    hide Step, Range.UploadPositionOf, Range.DownloadPositionOf, OnUploadAnswer, AnswerFor;
    if action.UploadAnswered? && LiveUpload(s, action.token) {
      forall answer ensures OnUploadAnswer(s, action.token, s.uploads[action.token], answer).downloads == s.downloads {
        AnswerLeavesDownloads(s, action.token, answer);
      }
    }
  }

  lemma AnswerLeavesDownloads(s: System, token: Token, answer: UploadResult)
    requires LiveUpload(s, token)
    ensures OnUploadAnswer(s, token, s.uploads[token], answer).downloads == s.downloads
  {
  }

  /** An answer does not make a request send its last chunk: it reads first. */
  lemma AnswerUpload(s: System, token: Token, answer: UploadResult)
    requires LiveUpload(s, token) && s.uploads[token].pc != Reading
    ensures
      var was, t := s.uploads[token], OnUploadAnswer(s, token, s.uploads[token], answer);
      && token in t.uploads
      && (forall u <- t.uploads :: u != token ==> u in s.uploads && t.uploads[u] == s.uploads[u])
      && (SentLast(t.uploads[token]) ==> SameLast(was, t.uploads[token]))
  {
  }

  /** A request that starts a new call has not been answered yet. */
  lemma ApplyUpload(content: Bytes, s: System, action: Action, token: Token)
    requires Inv(content, s) && !action.Serve? && token in Apply(content, s, action).uploads
    ensures
      var h := Apply(content, s, action).uploads[token];
      SentLast(h) && AnswersTo(s.log, LastReply(token, h)) != [] ==>
        token in s.uploads && SameLast(s.uploads[token], h)
  {
    hide Range.UploadPositionOf, Range.DownloadPositionOf, Inv, OnUploadAnswer, OnDownloadEvent, EndDownload;
    hide Honest, Project;
    if action.UploadAnswered? && LiveUpload(s, action.token) && s.uploads[action.token].pc != Reading {
      var answer := AnswerFor(s, LastReply(action.token, s.uploads[action.token]));
      if answer.Some? { AnswerUpload(s, action.token, answer.value); }
    } else if action.UploadBodyReady? && LiveUpload(s, action.token) {
      NextCallIsNew(content, s, action.token);
    } else if action.DownloadPolled? && action.token in s.downloads {
      EventLeavesUploads(s, action.token);
    } else if action.DownloadDropped? && action.token in s.downloads {
      EndLeavesUploads(s, action.token);
    }
  }

  /** A request that has its response makes no more calls, and made none to get it. */
  lemma ApplyEnds(content: Bytes, s: System, action: Action, token: Token)
    requires token in Apply(content, s, action).uploads && Apply(content, s, action).uploads[token].response.Some?
    requires token in s.uploads && s.uploads[token].response.Some? ==> !s.uploads[token].alive
    ensures token in s.uploads && !Apply(content, s, action).uploads[token].alive
    ensures SameLast(s.uploads[token], Apply(content, s, action).uploads[token])
  {
    hide Range.UploadPositionOf, Range.DownloadPositionOf, OnUploadAnswer, OnDownloadEvent, EndDownload, OnServe;
    hide Honest, Project, AnswerFor;
    if action.UploadAnswered? && LiveUpload(s, action.token) && s.uploads[action.token].pc != Reading {
      var answer := AnswerFor(s, LastReply(action.token, s.uploads[action.token]));
      if answer.Some? { AnswerEnds(s, action.token, answer.value); }
    } else if action.Serve? && s.running && s.mailbox != [] {
      ServeLeavesHandlers(s);
    } else if action.DownloadPolled? && action.token in s.downloads {
      EventLeavesUploads(s, action.token);
    } else if action.DownloadDropped? && action.token in s.downloads {
      EndLeavesUploads(s, action.token);
    }
  }

  lemma AnswerEnds(s: System, token: Token, answer: UploadResult)
    requires LiveUpload(s, token) && s.uploads[token].pc != Reading
    ensures
      var was, t := s.uploads[token], OnUploadAnswer(s, token, s.uploads[token], answer);
      && token in t.uploads
      && (forall u <- t.uploads :: u != token ==> u in s.uploads && t.uploads[u] == s.uploads[u])
      && (t.uploads[token] == was.(alive := false, response := t.uploads[token].response)
          || t.uploads[token].response == was.response)
      && (t.uploads[token].alive ==> t.uploads[token].response == was.response)
  {
  }

  lemma ApplyKeepsUploadsHonest(content: Bytes, s: System, action: Action)
    requires Inv(content, s) && UploadsHonest(s)
    ensures UploadsHonest(Apply(content, s, action))
  {
    hide Inv, Apply, Step;
    var t := Apply(content, s, action);
    ApplyLog(content, s, action);
    forall token | token in t.uploads ensures UploadHonest(t, token) {
      if action.Serve? {
        ApplyServe(content, s);
        if t != s {
          assert UploadHonest(s, token);
          ServeKeepsUploadHonest(content, s, token);
        }
      } else {
        ApplyUpload(content, s, action, token);
        assert token in s.uploads ==> UploadHonest(s, token);
        if token in s.uploads && SameLast(s.uploads[token], t.uploads[token]) { TakenStays(content, s, action, token); }
        if t.uploads[token].response.Some? {
          ApplyResponse(content, s, action, token);
          ApplyEnds(content, s, action, token);
          if t.uploads[token].response == Some(Ok) && s.uploads[token].response != Some(Ok) { EndedOnOk(s, token); }
        }
      }
    }
  }

  lemma ApplyServe(content: Bytes, s: System)
    ensures Apply(content, s, Serve) == if s.running && s.mailbox != [] then OnServe(s) else s
    ensures s.running && s.mailbox != [] ==> OnServe(s).uploads == s.uploads
  {
    hide Step;
  }

  /** The two answers that end a request with success. */
  lemma EndedOnOk(s: System, token: Token)
    requires token in s.uploads && s.uploads[token].calls >= 1 && UploadHonest(s, token)
    requires AnswerFor(s, LastReply(token, s.uploads[token])).Some?
    requires EndedOn(s.uploads[token], AnswerFor(s, LastReply(token, s.uploads[token])).value, Some(Ok))
    ensures LastTaken(s, token) || ToldFinished(s, token)
  {
    var reply := LastReply(token, s.uploads[token]);
    AnswerIsInLog(s, reply);
    if AnswerFor(s, reply).value.Refused? {
      assert Refused(UploadError.Finished) in AnswersTo(s.log, reply);
    }
  }

  lemma {:induction false} ExecKeepsUploadsHonest(content: Bytes, s: System, actions: seq<Action>)
    requires |content| < U64_LIMIT && Inv(content, s) && UploadsHonest(s)
    ensures UploadsHonest(Exec(content, s, actions))
    decreases |actions|
  {
    hide Inv, Apply, UploadsHonest;
    if actions != [] {
      ApplyKeepsInv(content, s, actions[0]);
      ApplyKeepsUploadsHonest(content, s, actions[0]);
      ExecKeepsUploadsHonest(content, Apply(content, s, actions[0]), actions[1..]);
    }
  }

  /** A download took the upload's own last chunk, and with it has been sent the content from
      its start to the very end. */
  ghost predicate Delivered(content: Bytes, s: System, token: Token, download: Token)
    requires token in s.uploads
  {
    && TookLast(s, token, download) && s.downloads[download].start <= |content|
    && Carried(EventsTo(s.log, download)) == content[s.downloads[download].start..]
  }

  ghost predicate WasDelivered(content: Bytes, s: System, token: Token)
    requires token in s.uploads
  {
    exists download :: Delivered(content, s, token, download)
  }

  /** An upload request that answers ok tells the truth: unless its own last call was answered
      that the download is finished, a download took its own last chunk and, with it, the end
      of the content. */
  lemma UploadOkIsReal(content: Bytes, s: System, token: Token)
    requires |content| < U64_LIMIT && Reachable(content, s)
    requires token in s.uploads && s.uploads[token].response == Some(Ok)
    ensures
      ToldFinished(s, token) || WasDelivered(content, s, token)
  {
    hide Inv, Exec, UploadsHonest;
    var metadata: string, actions: seq<Action> :| s == Exec(content, Start(metadata), actions);
    StartIsInv(content, metadata);
    assert UploadsHonest(Start(metadata)) by { StartHonest(metadata); }
    ExecKeepsUploadsHonest(content, Start(metadata), actions);
    ExecKeepsInv(content, Start(metadata), actions);
    HonestOne(s, token);
    if !ToldFinished(s, token) {
      var download :| TookLast(s, token, download);
      var h := s.uploads[token];
      HandedOverIsSent(s.log, download, h.chunks[0].IntoEvent(), LastReply(token, h));
      FinalCarriesAll(content, s, download);
      assert Delivered(content, s, token, download);
    }
  }

  lemma StartHonest(metadata: string)
    ensures UploadsHonest(Start(metadata))
  {
  }

  lemma HonestOne(s: System, token: Token)
    requires UploadsHonest(s) && token in s.uploads
    ensures UploadHonest(s, token)
  {
  }

  lemma FinalCarriesAll(content: Bytes, s: System, token: Token)
    requires Inv(content, s) && token in s.downloads && HasFinal(EventsTo(s.log, token))
    ensures s.downloads[token].start <= |content|
    ensures Carried(EventsTo(s.log, token)) == content[s.downloads[token].start..]
  {
    hide Running, TokensFit, IssuedFits, LogFits, DI.Follows, Carried;
    assert DownloadLogOk(content, s, token);
    var start, events := s.downloads[token].start, EventsTo(s.log, token);
    var i :| 0 <= i < |events| && events[i].Final?;
    AllFromFinal(content, start, events, i);
  }

  /** Nothing can follow a final chunk but the end. */
  lemma AllFromFinal(content: Bytes, start: Position, events: seq<DownloadEvent>, i: nat)
    requires DI.Follows(content, start, events) && i < |events| && events[i].Final?
    ensures start <= |content| && Carried(events) == content[start..]
  {
    hide DI.Follows, Carried;
    DI.FinalReachesEnd(content, start, events, i);
    DI.FollowsCarries(content, start, events);
    CarriedGrows(events, i + 1);
  }

  // ----- Finishing -----

  /** A downloader asks the relay to end the session. */
  predicate AsksToFinish(action: Action) {
    action.GetContent? && Range.DownloadPositionOf(action.range) == Success(Range.Eof)
  }

  /** Nobody has asked to finish. */
  ghost predicate FinishFree(s: System) {
    && (forall c <- s.mailbox :: !c.FinishDownload?)
    && (s.running ==> !s.session.downloader.Finished?)
    && NeverTold(s, UploadError.Finished)
  }

  lemma StepFinishFree(s: Session, command: Command, reply: Reply)
    requires Consistent(s) && !s.downloader.Finished? && !command.FinishDownload?
    ensures Refused(UploadError.Finished) !in Answers(s, command, reply)
    ensures !Step(s, command).stop ==> !Step(s, command).state.downloader.Finished?
  {
  }

  lemma ApplyMailbox(content: Bytes, s: System, action: Action)
    requires !AsksToFinish(action) && (forall c <- s.mailbox :: !c.FinishDownload?)
    ensures forall c <- Apply(content, s, action).mailbox :: !c.FinishDownload?
  {
    hide Step, Range.UploadPositionOf, Range.DownloadPositionOf, AnswerFor, EventsTo;
  }

  lemma ApplySession(content: Bytes, s: System, action: Action)
    requires !action.Serve?
    ensures Apply(content, s, action).session == s.session && Apply(content, s, action).running == s.running
  {
    hide Step, Range.UploadPositionOf, Range.DownloadPositionOf, AnswerFor, EventsTo;
  }

  lemma ApplyKeepsFinishFree(content: Bytes, s: System, action: Action)
    requires Inv(content, s) && FinishFree(s) && !AsksToFinish(action)
    ensures FinishFree(Apply(content, s, action))
  {
    hide Apply, Step, TokensFit, IssuedFits, LogFits, DownloadLogOk, Answers, Delivers, Consistent;
    var t := Apply(content, s, action);
    ApplyLog(content, s, action);
    ApplyMailbox(content, s, action);
    if action.Serve? {
      ApplyServe(content, s);
      if s.running && s.mailbox != [] {
        assert s.mailbox[0] in s.mailbox;
        forall reply: Reply ensures Refused(UploadError.Finished) !in AnswersTo(t.log, reply) {
          ServeReads(s, 0, reply);
          StepFinishFree(s.session, s.mailbox[0], reply);
        }
        StepFinishFree(s.session, s.mailbox[0], Reply(0, 0));
      }
    } else {
      ApplySession(content, s, action);
    }
  }

  /** Nobody is told that the download is finished unless a downloader has said so. */
  lemma {:induction false} FinishedNeedsEof(content: Bytes, s: System, actions: seq<Action>)
    requires |content| < U64_LIMIT && Inv(content, s) && FinishFree(s)
    requires forall action <- actions :: !AsksToFinish(action)
    ensures NeverTold(Exec(content, s, actions), UploadError.Finished)
    decreases |actions|
  {
    hide Inv, Apply, AsksToFinish;
    if actions != [] {
      assert actions[0] in actions;
      ApplyKeepsInv(content, s, actions[0]);
      ApplyKeepsFinishFree(content, s, actions[0]);
      FinishedNeedsEof(content, Apply(content, s, actions[0]), actions[1..]);
    }
  }

  /** While no downloader has asked to finish, an upload that answers ok means that a download
      took its own last chunk and, with it, the end of the content. */
  lemma UploadOkMeansDelivered(content: Bytes, metadata: string, actions: seq<Action>, token: Token)
    requires |content| < U64_LIMIT
    requires forall action <- actions :: !AsksToFinish(action)
    requires
      var s := Exec(content, Start(metadata), actions);
      token in s.uploads && s.uploads[token].response == Some(Ok)
    ensures
      var s := Exec(content, Start(metadata), actions);
      WasDelivered(content, s, token)
  {
    hide Inv, Exec, AsksToFinish, FinishFree, WasDelivered;
    StartIsInv(content, metadata);
    StartIsFinishFree(metadata);
    FinishedNeedsEof(content, Start(metadata), actions);
    UploadOkIsReal(content, Exec(content, Start(metadata), actions), token);
  }

  lemma StartIsFinishFree(metadata: string)
    ensures FinishFree(Start(metadata))
  {
  }
}
