// What holds of one upload request, whoever else is using the session: where its last call
// is, what it has been answered, and where the session believes it to be.

module UploadInvariant {
  import opened Base
  import opened RelaySession
  import opened SessionReadings
  import opened SessionSteps
  import opened SessionInvariant
  import opened Api
  import opened RelaySystem

  /** The request's last call is still in the mailbox. */
  predicate Queued(token: Token, h: UploadHandler, queue: seq<Command>)
    requires h.calls >= 1 && h.chunks != []
  {
    h.pc != Reading && queue != [] && queue[0] == LastCall(token, h)
  }

  function Goodbye(token: Token): seq<Command> {
    [Command.Disconnected(token, Uploader)]
  }

  /** At most the last call is in the mailbox, and behind it, once the request is gone, its
      `Disconnected`. */
  predicate QueueFits(token: Token, h: UploadHandler, queue: seq<Command>)
    requires h.calls >= 1 && h.chunks != []
  {
    || queue == []
    || (h.alive && h.pc != Reading && queue == [LastCall(token, h)])
    || (!h.alive && queue == Goodbye(token))
    || (!h.alive && h.pc != Reading && queue == [LastCall(token, h)] + Goodbye(token))
  }

  /** If the session has this request registered, it is at this position. */
  predicate At(s: Session, token: Token, position: Position) {
    s.IsUploader(token) ==> s.uploader.value.position == position
  }

  /** No chunk is held while this request is registered. */
  predicate NothingHeld(s: Session, token: Token) {
    s.IsUploader(token) ==> !s.pending.Data?
  }

  predicate QueuedFits(token: Token, h: UploadHandler, s: Session)
    requires h.chunks != []
  {
    match h.pc
    case Starting => !s.IsUploader(token)
    case Flushing => At(s, token, h.position)
    case Reading => true
    case Sending => At(s, token, h.position) && NothingHeld(s, token)
  }

  /** Only a flush or a chunk is ever parked, and a live request that is parked is the
      registered uploader. */
  predicate ParkedFits(token: Token, h: UploadHandler, s: Session)
    requires h.chunks != [] && s.pending.Data?
  {
    && (h.pc == Flushing || h.pc == Sending)
    && (h.alive ==> s.IsUploader(token))
    && (h.pc == Flushing ==> At(s, token, h.position))
    && (h.pc == Sending ==> At(s, token, h.position + h.chunks[0].Len()) && s.pending.chunk == h.chunks[0])
  }

  predicate AcceptedFits(token: Token, h: UploadHandler, s: Session)
    requires h.chunks != []
  {
    match h.pc
    case Starting => At(s, token, h.position)
    case Flushing => At(s, token, h.position) && NothingHeld(s, token)
    case Reading => At(s, token, h.position) && NothingHeld(s, token)
    case Sending => At(s, token, h.position + h.chunks[0].Len()) && NothingHeld(s, token)
  }

  /** A live request's last call is queued, parked or answered. */
  predicate LiveFits(token: Token, h: UploadHandler, queue: seq<Command>, s: Session, answers: seq<UploadResult>)
    requires h.calls >= 1 && h.chunks != []
  {
    && (h.pc == Reading ==> answers == [Accepted])
    && (!Queued(token, h, queue) && Parked(s, LastReply(token, h)) == 0 ==> |answers| == 1)
    && (answers == [Accepted] ==> AcceptedFits(token, h, s))
  }

  /** `queue` is what the mailbox holds of this request's, and `answers` what its last call
      has been answered. */
  predicate UploadOk(content: Bytes, token: Token, h: UploadHandler, queue: seq<Command>, s: Session,
                     answers: seq<UploadResult>)
  {
    && h.calls >= 1 && Plan(content, h.position, h.chunks)
    && QueueFits(token, h, queue)
    && (!h.alive && queue == [] ==> !s.IsUploader(token))
    && |answers| <= 1
    && (Queued(token, h, queue) ==>
          answers == [] && Parked(s, LastReply(token, h)) == 0 && QueuedFits(token, h, s))
    && (Parked(s, LastReply(token, h)) == 1 ==> answers == [] && ParkedFits(token, h, s))
    && (h.alive ==> LiveFits(token, h, queue, s, answers))
  }

  lemma OwnStartKeeps(content: Bytes, token: Token, h: UploadHandler, queue: seq<Command>, s: Session)
    requires Consistent(s) && UploadOk(content, token, h, queue, s, [])
    requires h.pc == Starting && Queued(token, h, queue)
    ensures
      var call := LastCall(token, h);
      UploadOk(content, token, h, queue[1..], Step(s, call).state, Answers(s, call, LastReply(token, h)))
  {
    assert CheckStart(Evict(s).state, h.position) == CheckStart(s, h.position);
  }

  lemma OwnFlushKeeps(content: Bytes, token: Token, h: UploadHandler, queue: seq<Command>, s: Session)
    requires Consistent(s) && UploadOk(content, token, h, queue, s, [])
    requires h.pc == Flushing && Queued(token, h, queue)
    ensures
      var call := LastCall(token, h);
      UploadOk(content, token, h, queue[1..], Step(s, call).state, Answers(s, call, LastReply(token, h)))
  {
  }

  lemma OwnDataKeeps(content: Bytes, token: Token, h: UploadHandler, queue: seq<Command>, s: Session)
    requires Consistent(s) && UploadOk(content, token, h, queue, s, [])
    requires h.pc == Sending && Queued(token, h, queue)
    ensures
      var call := LastCall(token, h);
      UploadOk(content, token, h, queue[1..], Step(s, call).state, Answers(s, call, LastReply(token, h)))
  {
    var call := LastCall(token, h);
    assert call == UploadData(token, h.chunks[0], LastReply(token, h));
    var after := Step(s, call).state;
    if HandsOver(s, token) {
      assert s.uploader.value.position == h.position;
      assert after.uploader.value.position == h.position + h.chunks[0].Len();
    } else if DataAnswer(s, token).Some? {
      assert after == s && Answers(s, call, LastReply(token, h)) == [DataAnswer(s, token).value];
      assert DataAnswer(s, token).value != Accepted;
    }
  }

  lemma OwnGoodbyeKeeps(content: Bytes, token: Token, h: UploadHandler, queue: seq<Command>, s: Session,
                        answers: seq<UploadResult>)
    requires Consistent(s) && UploadOk(content, token, h, queue, s, answers)
    requires queue == Goodbye(token)
    ensures UploadOk(content, token, h, [], Step(s, queue[0]).state, answers)
  {
  }

  /** The session serves this request's own next command. */
  lemma ServingOwnKeeps(content: Bytes, token: Token, h: UploadHandler, queue: seq<Command>, s: Session,
                        answers: seq<UploadResult>)
    requires Consistent(s) && UploadOk(content, token, h, queue, s, answers)
    requires queue != []
    ensures UploadOk(content, token, h, queue[1..], Step(s, queue[0]).state,
                     answers + Answers(s, queue[0], LastReply(token, h)))
  {
    hide Step;
    if Queued(token, h, queue) {
      assert answers + Answers(s, queue[0], LastReply(token, h)) == Answers(s, queue[0], LastReply(token, h));
      match h.pc
      case Starting => OwnStartKeeps(content, token, h, queue, s);
      case Flushing => OwnFlushKeeps(content, token, h, queue, s);
      case Sending => OwnDataKeeps(content, token, h, queue, s);
    } else {
      OwnGoodbyeKeeps(content, token, h, queue, s, answers);
      assert answers + Answers(s, queue[0], LastReply(token, h)) == answers;
    }
  }

  /** Somebody else's command. */
  predicate Other(command: Command, token: Token) {
    Tagged(command) && Sender(command) != Some(token)
  }

  lemma OtherStartDownloadKeeps(content: Bytes, token: Token, h: UploadHandler, queue: seq<Command>, s: Session,
                                answers: seq<UploadResult>, command: Command)
    requires Consistent(s) && UploadOk(content, token, h, queue, s, answers)
    requires Other(command, token) && command.StartDownload?
    ensures UploadOk(content, token, h, queue, Step(s, command).state,
                     answers + Answers(s, command, LastReply(token, h)))
  {
    var reply := LastReply(token, h);
    assert Step(s, command).state.uploader == s.uploader;
    assert Parked(Step(s, command).state, reply) == 0;
    if Parked(s, reply) == 1 {
      assert answers + Answers(s, command, reply) == [Released(s, command).value];
    } else {
      assert answers + Answers(s, command, reply) == answers;
    }
  }

  lemma OtherFinishKeeps(content: Bytes, token: Token, h: UploadHandler, queue: seq<Command>, s: Session,
                         answers: seq<UploadResult>, command: Command)
    requires Consistent(s) && UploadOk(content, token, h, queue, s, answers)
    requires Other(command, token) && command.FinishDownload? && !Step(s, command).stop
    ensures UploadOk(content, token, h, queue, Step(s, command).state,
                     answers + Answers(s, command, LastReply(token, h)))
  {
    assert answers + Answers(s, command, LastReply(token, h)) == answers;
  }

  lemma OtherStartUploadKeeps(content: Bytes, token: Token, h: UploadHandler, queue: seq<Command>, s: Session,
                              answers: seq<UploadResult>, command: Command)
    requires Consistent(s) && UploadOk(content, token, h, queue, s, answers)
    requires Other(command, token) && command.StartUpload?
    ensures UploadOk(content, token, h, queue, Step(s, command).state,
                     answers + Answers(s, command, LastReply(token, h)))
  {
    var reply := LastReply(token, h);
    assert !Step(s, command).state.IsUploader(token);
    if Parked(s, reply) == 1 && s.uploader.Some? {
      assert answers + Answers(s, command, reply) == [Released(s, command).value];
      assert Parked(Step(s, command).state, reply) == 0;
    } else {
      assert answers + Answers(s, command, reply) == answers;
      assert Parked(Step(s, command).state, reply) == Parked(s, reply);
    }
  }

  lemma OtherDataKeeps(content: Bytes, token: Token, h: UploadHandler, queue: seq<Command>, s: Session,
                       answers: seq<UploadResult>, command: Command)
    requires Consistent(s) && UploadOk(content, token, h, queue, s, answers)
    requires Other(command, token) && (command.UploadData? || command.FlushUpload?)
    ensures UploadOk(content, token, h, queue, Step(s, command).state,
                     answers + Answers(s, command, LastReply(token, h)))
  {
    assert answers + Answers(s, command, LastReply(token, h)) == answers;
    if s.IsUploader(command.token) {
      assert !s.IsUploader(token) && !Step(s, command).state.IsUploader(token);
    }
  }

  lemma OtherLeavesKeeps(content: Bytes, token: Token, h: UploadHandler, queue: seq<Command>, s: Session,
                         answers: seq<UploadResult>, command: Command)
    requires Consistent(s) && UploadOk(content, token, h, queue, s, answers)
    requires Other(command, token) && command.Disconnected? && !Step(s, command).stop
    ensures UploadOk(content, token, h, queue, Step(s, command).state,
                     answers + Answers(s, command, LastReply(token, h)))
  {
    assert answers + Answers(s, command, LastReply(token, h)) == answers;
  }

  lemma OtherPassesKeeps(content: Bytes, token: Token, h: UploadHandler, queue: seq<Command>, s: Session,
                         answers: seq<UploadResult>, command: Command)
    requires UploadOk(content, token, h, queue, s, answers)
    requires Other(command, token)
    requires command.Metadata? || command.CheckStartUpload? || Signals(command)
    ensures UploadOk(content, token, h, queue, Step(s, command).state,
                     answers + Answers(s, command, LastReply(token, h)))
  {
    var after := Step(s, command).state;
    assert after.uploader == s.uploader && after.pending == s.pending;
    assert answers + Answers(s, command, LastReply(token, h)) == answers;
  }

  /** The session serves somebody else's command. */
  lemma ServingOtherKeeps(content: Bytes, token: Token, h: UploadHandler, queue: seq<Command>, s: Session,
                          answers: seq<UploadResult>, command: Command)
    requires Consistent(s) && UploadOk(content, token, h, queue, s, answers)
    requires Other(command, token) && !Step(s, command).stop
    ensures UploadOk(content, token, h, queue, Step(s, command).state,
                     answers + Answers(s, command, LastReply(token, h)))
  {
    hide Step, UploadOk, Consistent, Other, Answers;
    match command
    case StartDownload(_, _, _) => OtherStartDownloadKeeps(content, token, h, queue, s, answers, command);
    case FinishDownload(_) => OtherFinishKeeps(content, token, h, queue, s, answers, command);
    case StartUpload(_, _, _) => OtherStartUploadKeeps(content, token, h, queue, s, answers, command);
    case UploadData(_, _, _) => OtherDataKeeps(content, token, h, queue, s, answers, command);
    case FlushUpload(_, _) => OtherDataKeeps(content, token, h, queue, s, answers, command);
    case Disconnected(_, _) => OtherLeavesKeeps(content, token, h, queue, s, answers, command);
    case _ => OtherPassesKeeps(content, token, h, queue, s, answers, command);
  }
}
