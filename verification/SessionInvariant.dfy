// What every state of a running session keeps, whatever commands it has served.

module SessionInvariant {
  import opened Base
  import opened RelaySession

  /** Serving a list of commands; a session that stops serves no more of them. */
  function Run(s: Session, commands: seq<Command>): Outcome
    decreases |commands|
  {
    if commands == [] then Outcome(s, [], false)
    else
      var first := Step(s, commands[0]);
      if first.stop then first else Run(first.state, commands[1..]).After(first.effects)
  }

  lemma {:induction false} RunAppend(s: Session, a: seq<Command>, b: seq<Command>)
    ensures Run(s, a + b) == if Run(s, a).stop then Run(s, a) else Run(Run(s, a).state, b).After(Run(s, a).effects)
    decreases |a|
  {
    if a == [] {
      assert a + b == b;
    } else {
      assert (a + b)[1..] == a[1..] + b;
      var first := Step(s, a[0]);
      if !first.stop {
        RunAppend(first.state, a[1..], b);
      }
    }
  }

  /** Which errors can be queued, and when. */
  predicate QueuedErrorFits(s: Session)
    requires s.pending.Error?
  {
    match s.pending.error
    case NotFound => false
    case DataPending => false
    case ConnectionReplaced => s.uploader.None?
    case Finished => s.uploader.Some? && s.downloader.Finished?
    case Position(p) => s.uploader.Some? && (s.downloader.Connected? ==> p == s.downloader.position)
  }

  /** A held chunk excludes a connected downloader, and its uploader, if still registered,
      stands right after it. */
  predicate HeldChunkFits(s: Session)
    requires s.pending.Data?
  {
    && !s.downloader.Connected?
    && s.pending.size == s.pending.chunk.Len()
    && (s.uploader.Some? ==> s.uploader.value.position == s.pending.position + s.pending.size)
  }

  /** A registered uploader and a connected downloader are at the same place, unless the
      uploader is about to be told where to resume. */
  predicate PositionsAgree(s: Session) {
    s.uploader.Some? && s.downloader.Connected? ==>
      || s.uploader.value.position == s.downloader.position
      || s.pending == Error(Position(s.downloader.position))
  }

  /** Frames are held only for an absent peer, and never too many. */
  predicate FramesFit(s: Session, direction: Direction) {
    && |s.Held(direction)| <= 64
    && (s.Held(direction) != [] ==> s.Ws(direction).None?)
  }

  /** A finished session that still runs is waiting for an uploader to leave, or for one to
      take over from a chunk still held. */
  predicate FinishedFits(s: Session) {
    s.downloader.Finished? ==> s.uploader.Some? || s.pending.Data?
  }

  predicate Consistent(s: Session) {
    && FinishedFits(s)
    && (s.pending.Data? ==> HeldChunkFits(s))
    && (s.pending.Error? ==> QueuedErrorFits(s))
    && PositionsAgree(s)
    && FramesFit(s, Upload)
    && FramesFit(s, Download)
  }

  lemma StartDownloadKeepsConsistent(s: Session, token: Token, position: Position)
    requires Consistent(s)
    ensures Consistent(OnStartDownload(s, token, position).state)
  {
  }

  lemma StartUploadKeepsConsistent(s: Session, token: Token, position: Position, reply: Reply)
    requires Consistent(s)
    ensures Consistent(OnStartUpload(s, token, position, reply).state)
  {
  }

  lemma WebsocketKeepsConsistent(s: Session, command: Command)
    requires command.StartWebsocket? || command.WebsocketData?
    requires Consistent(s)
    ensures Consistent(Step(s, command).state)
  {
  }

  lemma LeavingKeepsConsistent(s: Session, token: Token, peer: Peer)
    requires Consistent(s) && !OnDisconnected(s, token, peer).stop
    ensures Consistent(OnDisconnected(s, token, peer).state)
  {
  }

  lemma StepKeepsConsistent(s: Session, command: Command)
    requires Consistent(s) && !Step(s, command).stop
    ensures Consistent(Step(s, command).state)
  {
    match command
    case StartDownload(token, position, _) => StartDownloadKeepsConsistent(s, token, position);
    case StartUpload(token, position, reply) => StartUploadKeepsConsistent(s, token, position, reply);
    case StartWebsocket(_, _, _) => WebsocketKeepsConsistent(s, command);
    case WebsocketData(_, _) => WebsocketKeepsConsistent(s, command);
    case Disconnected(token, peer) => LeavingKeepsConsistent(s, token, peer);
    case _ =>
  }

  lemma {:induction false} RunKeepsConsistent(s: Session, commands: seq<Command>)
    requires Consistent(s) && !Run(s, commands).stop
    ensures Consistent(Run(s, commands).state)
    decreases |commands|
  {
    if commands != [] {
      StepKeepsConsistent(s, commands[0]);
      RunKeepsConsistent(Step(s, commands[0]).state, commands[1..]);
    }
  }

  predicate Restarts(command: Command, token: Token) {
    command.StartUpload? && command.token == token
  }

  /** Only its own start makes a token the uploader. */
  lemma StepKeepsUploaderGone(s: Session, command: Command, token: Token)
    requires !s.IsUploader(token) && !Restarts(command, token)
    ensures !Step(s, command).state.IsUploader(token)
  {
  }

  /** Every state a fresh session reaches while it runs is consistent. */
  lemma ReachedIsConsistent(metadata: string, commands: seq<Command>)
    requires !Run(Initial(metadata), commands).stop
    ensures Consistent(Run(Initial(metadata), commands).state)
  {
    RunKeepsConsistent(Initial(metadata), commands);
  }

  /** Neither half of the above can be dropped: a finished session can be left without any
      uploader, by a chunk held after the finish and a later uploader refused because of it.
      Nor is finished final: a downloader that connects takes the session out of it. */
  lemma FinishedCanLoseItsUploader(metadata: string)
    ensures
      var commands := [
        StartUpload(1, 0, Reply(1, 0)), FinishDownload(Reply(2, 0)), StartUpload(3, 0, Reply(3, 0)),
        FlushUpload(3, Reply(3, 1)), UploadData(3, Chunk.More([7]), Reply(3, 2)), StartUpload(4, 0, Reply(4, 0))];
      var s := Run(Initial(metadata), commands);
      && !s.stop && s.state.downloader.Finished? && s.state.uploader.None? && s.state.pending.Data?
      && OnStartDownload(s.state, 5, 0).state.downloader == Connected(5, 1)
  {
    hide Run;
    var start, finish := StartUpload(1, 0, Reply(1, 0)), FinishDownload(Reply(2, 0));
    var take := StartUpload(3, 0, Reply(3, 0));
    var flush, send := FlushUpload(3, Reply(3, 1)), UploadData(3, Chunk.More([7]), Reply(3, 2));
    var late := StartUpload(4, 0, Reply(4, 0));
    var empty := Initial(metadata);
    var one := empty.(uploader := Some(Registration(1, 0)));
    var finished := one.(downloader := DownloaderSlot.Finished, pending := Error(UploadError.Finished));
    var taken := finished.(uploader := Some(Registration(3, 0)), pending := Nothing);
    var held := taken.(uploader := Some(Registration(3, 1)), pending := Data(Chunk.More([7]), Some(Reply(3, 2)), 0, 1));
    var left := held.(uploader := None, pending := held.pending.(waiter := None));
    RunNone(left);
    RunCons(held, late, left, []);
    RunCons(taken, send, held, [late] + []);
    RunCons(taken, flush, taken, [send] + ([late] + []));
    RunCons(finished, take, taken, [flush] + ([send] + ([late] + [])));
    RunCons(one, finish, finished, [take] + ([flush] + ([send] + ([late] + []))));
    RunCons(empty, start, one, [finish] + ([take] + ([flush] + ([send] + ([late] + [])))));
    assert [start] + ([finish] + ([take] + ([flush] + ([send] + ([late] + [])))))
        == [start, finish, take, flush, send, late];
  }

  lemma RunNone(s: Session)
    ensures Run(s, []) == Outcome(s, [], false)
  {
  }

  lemma RunCons(s: Session, command: Command, next: Session, rest: seq<Command>)
    requires Step(s, command).state == next && !Step(s, command).stop
    ensures Run(s, [command] + rest).state == Run(next, rest).state
    ensures Run(s, [command] + rest).stop == Run(next, rest).stop
  {
    assert ([command] + rest)[1..] == rest;
  }
}
