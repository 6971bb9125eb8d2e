// Who is connected, where, and what waits, after any step: one law for each part of a session's
// state, and what they come to over whole runs.

module SessionLaws {
  import opened Base
  import opened RelaySession
  import opened Effects
  import opened SessionSteps
  import opened SessionInvariant
  import opened SessionTheorems

  /** Where the content goes on: at a connected downloader, and behind a held chunk. Without
      either, it may go on anywhere. */
  predicate GoesOnAt(s: Session, position: Position) {
    && (s.downloader.Connected? ==> position == s.downloader.position)
    && (s.pending.Data? ==> position == s.pending.position + s.pending.chunk.Len())
  }

  // ----- The uploader -----

  /** A registered uploader stays so but for three things: another start, its own leaving, and a
      finish that meets a held chunk. A start registers its sender exactly where the content
      goes on. */
  lemma UploaderAfter(s: Session, command: Command, token: Token)
    requires Consistent(s)
    ensures Step(s, command).state.IsUploader(token) <==>
      if command.StartUpload? then command.token == token && GoesOnAt(s, command.position)
      else
        && s.IsUploader(token)
        && !(command.Disconnected? && command.peer.Uploader? && command.token == token)
        && !(command.FinishDownload? && s.pending.Data?)
  {
    if command.StartUpload? { StartAnswer(s, command.position); }
  }

  /** It moves by exactly the chunks taken from it. */
  lemma UploaderStands(s: Session, command: Command, token: Token)
    requires Step(s, command).state.IsUploader(token)
    ensures Step(s, command).state.uploader.value.position ==
      if command.StartUpload? then command.position
      else s.uploader.value.position + if Accepts(s, command) then command.chunk.Len() else 0
  {
  }

  lemma StartAnswer(s: Session, position: Position)
    requires Consistent(s)
    ensures CheckStart(s, position) == CheckStart(Evict(s).state, position)
    ensures CheckStart(s, position).Accepted? <==> GoesOnAt(s, position)
    ensures !GoesOnAt(s, position) ==>
      CheckStart(s, position) == Refused(Position(
        if s.downloader.Connected? then s.downloader.position else s.pending.position + s.pending.chunk.Len()))
  {
  }

  /** Over every run, a start and a dry run are both answered that they may go ahead exactly
      where the content goes on, and otherwise with the one place where it does. */
  lemma StartsAreAnswered(metadata: string, commands: seq<Command>, token: Token, position: Position, reply: Reply)
    requires !Run(Initial(metadata), commands).stop
    requires reply.connection == token
    ensures
      var s := Run(Initial(metadata), commands).state;
      var start := Step(s, StartUpload(token, position, reply));
      var check := Step(s, CheckStartUpload(position, reply));
      && start.effects != [] && check.effects == [start.effects[|start.effects| - 1]] && check.state == s
      && (start.state.IsUploader(token) <==> GoesOnAt(s, position))
      && (GoesOnAt(s, position) ==> check.effects == [Answer(reply, Accepted)])
      && (!GoesOnAt(s, position) ==>
            exists p :: check.effects == [Answer(reply, Refused(Position(p)))] && GoesOnAt(s, p)
                        && forall q :: GoesOnAt(s, q) ==> q == p)
  {
    ReachedIsConsistent(metadata, commands);
    var s := Run(Initial(metadata), commands).state;
    hide Run;
    StartAnswer(s, position);
    var answer := CheckStart(s, position);
    DryRunAgrees(s, token, position, reply);
    if !GoesOnAt(s, position) {
      var p := answer.error.position;
      assert Step(s, CheckStartUpload(position, reply)).effects == [Answer(reply, Refused(Position(p)))];
      assert GoesOnAt(s, p);
    }
  }

  // ----- The downloader -----

  /** The connected downloader is the last to have started, until it leaves or somebody
      finishes. */
  lemma DownloaderAfter(s: Session, command: Command, token: Token)
    ensures Step(s, command).state.IsDownloader(token) <==>
      if command.StartDownload? then command.token == token
      else
        && s.IsDownloader(token) && !command.FinishDownload?
        && !(command.Disconnected? && command.peer.Downloader? && command.token == token)
  {
  }

  /** It starts where it asked, past a chunk it is handed there, and moves by what it is handed. */
  lemma DownloaderStands(s: Session, command: Command, token: Token)
    requires Consistent(s) && Step(s, command).state.IsDownloader(token)
    ensures Step(s, command).state.downloader.position ==
      (if command.StartDownload? then command.position else s.downloader.position)
      + if Handed(s, command).Some? then Handed(s, command).value.1.Len() else 0
  {
  }

  lemma FinishedAfter(s: Session, command: Command)
    ensures Step(s, command).state.downloader.Finished? <==>
      || command.FinishDownload?
      || (command.Disconnected? && command.peer == Downloader(true) && s.IsDownloader(command.token))
      || (s.downloader.Finished? && !command.StartDownload?)
  {
  }

  /** A downloader that leaves is gone, and takes the session with it exactly if it completed. */
  lemma LeavingDownloader(s: Session, token: Token, completed: bool)
    requires s.IsDownloader(token)
    ensures
      var left := Step(s, Command.Disconnected(token, Downloader(completed)));
      && !left.state.downloader.Connected? && left.effects == [] && (left.stop <==> completed)
      && left.state.(downloader := s.downloader) == s
  {
  }

  /** A token that is not the downloader, and does not start a download, is sent nothing. */
  lemma {:induction false} NeverHears(s: Session, commands: seq<Command>, token: Token)
    requires !s.IsDownloader(token)
    requires forall c <- commands :: !(c.StartDownload? && c.token == token)
    ensures EventsTo(Run(s, commands).effects, token) == [] && !Run(s, commands).state.IsDownloader(token)
    decreases |commands|
  {
    hide Step;
    if commands != [] {
      var first := Step(s, commands[0]);
      DownloaderAfter(s, commands[0], token);
      StepEvents(s, commands[0], token);
      if !first.stop {
        NeverHears(first.state, commands[1..], token);
        ProjectAppend(first.effects, Run(first.state, commands[1..]).effects, EventTo(token));
      }
    }
  }

  /** With no downloader connected, and until one connects, no chunk is handed to anybody. */
  lemma {:induction false} NobodyListens(s: Session, commands: seq<Command>)
    requires !s.downloader.Connected?
    requires forall c <- commands :: !c.StartDownload?
    ensures ChunksOf(Run(s, commands).effects) == [] && !Run(s, commands).state.downloader.Connected?
    decreases |commands|
  {
    hide Step;
    if commands != [] {
      var first := Step(s, commands[0]);
      if first.state.downloader.Connected? { DownloaderAfter(s, commands[0], first.state.downloader.token); }
      StepChunks(s, commands[0]);
      if !first.stop {
        NobodyListens(first.state, commands[1..]);
        ProjectAppend(first.effects, Run(first.state, commands[1..]).effects, ChunkOf());
      }
    }
  }

  /** Once a downloader has left without completing, and until another connects, nothing is
      handed over, and a chunk accepted then is held for the next, its call left waiting. */
  lemma LeftDownloaderHolds(s: Session, token: Token, commands: seq<Command>, send: Command)
    requires s.IsDownloader(token)
    requires forall c <- commands :: !c.StartDownload?
    ensures
      var left := Step(s, Command.Disconnected(token, Downloader(false)));
      var later := Run(left.state, commands);
      && !left.stop && ChunksOf(later.effects) == [] && !later.state.downloader.Connected?
      && (Accepts(later.state, send) ==>
            && Step(later.state, send).effects == []
            && Step(later.state, send).state.pending
               == Data(send.chunk, Some(send.reply), later.state.uploader.value.position, send.chunk.Len()))
  {
    hide Step, Run;
    LeavingDownloader(s, token, false);
    var left := Step(s, Command.Disconnected(token, Downloader(false)));
    NobodyListens(left.state, commands);
    HeldChunkAfter(Run(left.state, commands).state, send);
  }

  /** A session stops in these three ways and in no other. */
  lemma StopsExactly(s: Session, command: Command)
    ensures Step(s, command).stop <==>
      || (command.FinishDownload? && (s.uploader.None? || s.pending.Data?))
      || (command.Disconnected? && command.peer == Downloader(true) && s.IsDownloader(command.token))
      || (command.Disconnected? && command.peer.Uploader? && s.IsUploader(command.token) && s.downloader.Finished?)
  {
  }

  /** A finish is answered, and ends the session exactly if it leaves no uploader. */
  lemma FinishIsAnswered(s: Session, reply: Reply)
    requires Consistent(s)
    ensures
      var finished := Step(s, FinishDownload(reply));
      && (finished.stop <==> finished.state.uploader.None?)
      && (finished.stop <==> s.uploader.None? || s.pending.Data?)
      && finished.effects != [] && finished.effects[|finished.effects| - 1] == Done(reply)
      && finished.state.downloader.Finished?
  {
  }

  // ----- What waits -----

  /** Who waits on the chunk that is held after a step. */
  function WaiterAfter(s: Session, command: Command): Option<Reply>
    requires s.pending.Data?
  {
    if command.FlushUpload? && s.IsUploader(command.token) then Some(command.reply)
    else if (command.FinishDownload? || command.StartUpload?) && s.uploader.Some? then None
    else s.pending.waiter
  }

  /** A chunk is held once it is accepted with no downloader connected, and until one connects. */
  lemma HeldChunkAfter(s: Session, command: Command)
    ensures Step(s, command).state.pending.Data? <==>
      (s.pending.Data? && !command.StartDownload?) || (Accepts(s, command) && !s.downloader.Connected?)
    ensures Accepts(s, command) && !s.downloader.Connected? ==>
      && Step(s, command).state.pending
         == Data(command.chunk, Some(command.reply), s.uploader.value.position, command.chunk.Len())
      && Step(s, command).effects == []
    ensures s.pending.Data? && !command.StartDownload? ==>
      Step(s, command).state.pending == s.pending.(waiter := WaiterAfter(s, command))
  {
  }

  /** What the uploader's next call will be refused with. */
  lemma QueuedErrorAfter(s: Session, command: Command, error: UploadError)
    requires Consistent(s) && !Step(s, command).stop
    ensures Step(s, command).state.pending == Error(error) <==>
      match command
      case StartDownload(_, _, _) =>
        var stands := Step(s, command).state.downloader.position;
        s.uploader.Some? && s.uploader.value.position != stands && error == Position(stands)
      case FinishDownload(_) => error == UploadError.Finished
      case StartUpload(_, position, _) =>
        && !GoesOnAt(s, position) && !s.pending.Data?
        && (if s.uploader.Some? then error == UploadError.ConnectionReplaced else s.pending == Error(error))
      case Disconnected(token, Uploader) => s.pending == Error(error) && !s.IsUploader(token)
      case _ => s.pending == Error(error)
  {
    if command.StartUpload? { StartAnswer(s, command.position); }
  }

  // ----- Being told where to go on -----

  /** The uploader is registered, and its next call will be sent to this place. */
  predicate Redirected(s: Session, token: Token, position: Position) {
    s.IsUploader(token) && s.pending == Error(Position(position))
  }

  /** The uploader is registered, and nothing waits for it. */
  predicate Untroubled(s: Session, token: Token) {
    s.IsUploader(token) && s.pending.Nothing?
  }

  predicate Undisturbing(command: Command, token: Token) {
    !OwnCommand(command, token) && !Displaces(command) && !command.FinishDownload?
  }

  lemma StepKeepsDirection(s: Session, command: Command, token: Token, position: Position)
    requires Undisturbing(command, token)
    ensures Redirected(s, token, position) ==> Redirected(Step(s, command).state, token, position)
    ensures Untroubled(s, token) ==> Untroubled(Step(s, command).state, token)
  {
  }

  lemma {:induction false} RunKeepsDirection(s: Session, commands: seq<Command>, token: Token, position: Position)
    requires forall c <- commands :: Undisturbing(c, token)
    ensures Redirected(s, token, position) ==> Redirected(Run(s, commands).state, token, position)
    ensures Untroubled(s, token) ==> Untroubled(Run(s, commands).state, token)
    decreases |commands|
  {
    hide Step, Undisturbing, Redirected, Untroubled;
    if commands != [] {
      StepKeepsDirection(s, commands[0], token, position);
      RunKeepsDirection(Step(s, commands[0]).state, commands[1..], token, position);
    }
  }

  /** What a registered uploader's own next call is answered. */
  lemma NextCallAnswer(s: Session, call: Command, token: Token, position: Position)
    requires (call.FlushUpload? || call.UploadData?) && call.token == token
    ensures Redirected(s, token, position) ==>
      AnswersTo(Step(s, call).effects, call.reply) == [Refused(Position(position))]
    ensures Untroubled(s, token) ==>
      AnswersTo(Step(s, call).effects, call.reply)
      == if call.UploadData? && !s.downloader.Connected? then [] else [Accepted]
  {
    hide Step;
    StepAnswers(s, call, call.reply);
  }

  /** When a downloader connects, a registered uploader stays registered. Its next call, after
      any run in which it does nothing and nobody starts or finishes, is sent to exactly where
      that downloader stands if it stood elsewhere, and otherwise goes ahead. */
  lemma UploaderIsRedirected(s: Session, start: Command, between: seq<Command>, call: Command, token: Token)
    requires Consistent(s) && s.IsUploader(token) && start.StartDownload? && start.token != token
    requires forall c <- between :: Undisturbing(c, token)
    requires (call.FlushUpload? || call.UploadData?) && call.token == token
    ensures
      var met := Step(s, start).state;
      var later := Run(met, between);
      var answers := AnswersTo(Step(later.state, call).effects, call.reply);
      && met.IsDownloader(start.token) && later.state.IsUploader(token)
      && (s.uploader.value.position != met.downloader.position ==>
            answers == [Refused(Position(met.downloader.position))])
      && (s.uploader.value.position == met.downloader.position ==>
            answers == if call.UploadData? && !later.state.downloader.Connected? then [] else [Accepted])
  {
    hide Run, AnswersTo, Undisturbing;
    var met := Step(s, start).state;
    RunKeepsDirection(met, between, token, met.downloader.position);
    NextCallAnswer(Run(met, between).state, call, token, met.downloader.position);
  }

  // ----- Websockets -----

  /** A side's websocket is the last to have opened, until it closes. */
  lemma SocketAfter(s: Session, command: Command, direction: Direction)
    ensures Step(s, command).state.Ws(direction) ==
      if command.StartWebsocket? && command.direction == direction then Some(command.token)
      else if command.Disconnected? && command.peer == Websocket(direction) && s.Ws(direction) == Some(command.token)
      then None else s.Ws(direction)
  {
    match command
    case StartWebsocket(_, _, _) =>
    case WebsocketData(_, _) =>
    case Disconnected(_, _) =>
    case _ => assert !Signals(command);
  }

  lemma {:induction false} SendAllSends(direction: Direction, to: Token, frames: seq<Frame>)
    ensures forall e <- SendAll(direction, to, frames) ::
      e.Socket? && e.direction == direction && e.to == to && e.command.Send?
  {
    if frames != [] {
      SendAllSends(direction, to, frames[1..]);
    }
  }

  /** Frames go to nobody but the side's websocket of the moment. */
  lemma FramesGoToPeer(s: Session, command: Command, direction: Direction)
    ensures
      var after := Step(s, command);
      forall e <- after.effects :: e.Socket? && e.direction == direction && e.command.Send? ==>
        after.state.Ws(direction) == Some(e.to)
  {
    if command.StartWebsocket? {
      SendAllSends(command.direction, command.token, s.Held(command.direction));
    }
  }

  /** The websocket that is replaced, and no other, is told so. */
  lemma ReplacedSocketIsTold(s: Session, command: Command, direction: Direction, token: Token)
    ensures Socket(direction, token, SessionError) in Step(s, command).effects <==>
      command.StartWebsocket? && command.direction == direction && s.Ws(direction) == Some(token)
  {
    if command.StartWebsocket? { SendAllSends(command.direction, command.token, s.Held(command.direction)); }
  }

  lemma {:induction false} AbsentPeerHearsNothing(s: Session, commands: seq<Command>, direction: Direction)
    requires s.Ws(direction).None?
    requires forall c <- commands :: !(c.StartWebsocket? && c.direction == direction)
    ensures Run(s, commands).state.Ws(direction).None? && FramesTo(Run(s, commands).effects, direction) == []
    decreases |commands|
  {
    hide Step;
    if commands != [] {
      var first := Step(s, commands[0]);
      SocketAfter(s, commands[0], direction);
      StepFrames(s, commands[0], direction);
      if !first.stop {
        AbsentPeerHearsNothing(first.state, commands[1..], direction);
        ProjectAppend(first.effects, Run(first.state, commands[1..]).effects, FrameTo(direction));
      }
    }
  }

  /** Once a side's websocket has closed, and until another opens, its frames are all held, in
      order, but for those that meet a full queue. */
  lemma ClosedSocketHolds(s: Session, token: Token, direction: Direction, commands: seq<Command>)
    requires Consistent(s) && s.Ws(direction) == Some(token)
    requires forall c <- commands :: !(c.StartWebsocket? && c.direction == direction)
    ensures
      var closed := Step(s, Command.Disconnected(token, Websocket(direction)));
      var later := Run(closed.state, commands);
      && !closed.stop && closed.effects == [] && closed.state.Ws(direction).None?
      && FramesTo(later.effects, direction) == []
      && later.state.Held(direction) == KeptFrames(closed.state, commands, direction)
  {
    hide Run, KeptFrames;
    var closed := Step(s, Command.Disconnected(token, Websocket(direction))).state;
    StepKeepsConsistent(s, Command.Disconnected(token, Websocket(direction)));
    AbsentPeerHearsNothing(closed, commands, direction);
    FramesAreConserved(closed, commands, direction);
    assert closed.Held(direction) == [];
    assert [] + KeptFrames(closed, commands, direction) == KeptFrames(closed, commands, direction);
    assert [] + Run(closed, commands).state.Held(direction) == Run(closed, commands).state.Held(direction);
  }

  // ----- Metadata -----

  /** A session describes itself by the metadata it was created with, whenever it is asked and
      at no other time. */
  lemma StepDescribes(s: Session, command: Command, reply: Reply, metadata: string)
    ensures Step(s, command).state.metadata == s.metadata
    ensures Described(reply, metadata) in Step(s, command).effects <==>
      command == Metadata(reply) && metadata == s.metadata
  {
    if command.StartWebsocket? { SendAllSends(command.direction, command.token, s.Held(command.direction)); }
  }

  lemma {:induction false} DescribesItself(s: Session, commands: seq<Command>, reply: Reply, metadata: string)
    requires Described(reply, metadata) in Run(s, commands).effects
    ensures metadata == s.metadata && Metadata(reply) in commands
    decreases |commands|
  {
    hide Step;
    if commands != [] {
      StepDescribes(s, commands[0], reply, metadata);
      if Described(reply, metadata) !in Step(s, commands[0]).effects {
        DescribesItself(Step(s, commands[0]).state, commands[1..], reply, metadata);
      }
    }
  }

  /** The constructor's metadata is what every description carries. */
  lemma DescribedAsCreated(created: string, commands: seq<Command>, reply: Reply, metadata: string)
    requires Described(reply, metadata) in Run(Initial(created), commands).effects
    ensures metadata == created && Metadata(reply) in commands
  {
    DescribesItself(Initial(created), commands, reply, metadata);
  }
}
