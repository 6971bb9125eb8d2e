// What one relay session does with each command it serves.
//
// A `Session` is the value of a running session's state, and `Step` says, for every
// command, the next state, everything put on a channel, in order, and whether the session
// stops. `SessionState.State` is the imperative form, proved against these functions.

module RelaySession {
  import opened Base

  type Position = nat

  /** The name of one connection, given out once. */
  type Token = nat

  /** The reply channel of one request: the connection that issued it, and which of its
      calls it is. */
  datatype Reply = Reply(connection: Token, call: nat)

  datatype Chunk = More(data: Bytes) | Final(data: Bytes)
  {
    function Len(): nat { |data| }

    function IntoEvent(): DownloadEvent {
      match this
      case More(d) => DownloadEvent.More(d)
      case Final(d) => DownloadEvent.Final(d)
    }
  }

  datatype DownloadEvent = More(data: Bytes) | Final(data: Bytes) | ConnectionReplaced

  datatype Frame = Text(body: string) | Binary(bytes: Bytes)

  datatype Direction = Upload | Download
  {
    function Opposite(): Direction {
      match this
      case Upload => Download
      case Download => Upload
    }
  }

  datatype UploadError =
    | NotFound
    | ConnectionReplaced
    | Position(position: Position)
    | Finished
    | DataPending

  datatype UploadResult = Accepted | Refused(error: UploadError)

  datatype Peer = Downloader(completed: bool) | Uploader | Websocket(direction: Direction)

  datatype DownloaderSlot =
    | Disconnected
    | Connected(token: Token, position: Position)
    | Finished

  datatype Registration = Registration(token: Token, position: Position)

  /** The one slot of a session for what cannot be passed on yet: a chunk nobody has taken, or
      the answer to an uploader that has not called again. */
  datatype Pending =
    | Nothing
    | Data(chunk: Chunk, waiter: Option<Reply>, position: Position, size: nat)
    | Error(error: UploadError)

  /** The most frames kept for one side while it has no websocket; more are dropped. */
  const MAX_HELD_FRAMES: nat := 64

  datatype Session = Session(
    metadata: string,
    downloader: DownloaderSlot,
    uploader: Option<Registration>,
    pending: Pending,
    uploaderWs: Option<Token>,
    downloaderWs: Option<Token>,
    uploaderHeld: seq<Frame>,
    downloaderHeld: seq<Frame>)
  {
    function Ws(direction: Direction): Option<Token> {
      match direction
      case Upload => uploaderWs
      case Download => downloaderWs
    }

    function Held(direction: Direction): seq<Frame> {
      match direction
      case Upload => uploaderHeld
      case Download => downloaderHeld
    }

    function WithWs(direction: Direction, peer: Option<Token>): Session {
      match direction
      case Upload => this.(uploaderWs := peer)
      case Download => this.(downloaderWs := peer)
    }

    function WithHeld(direction: Direction, frames: seq<Frame>): Session {
      match direction
      case Upload => this.(uploaderHeld := frames)
      case Download => this.(downloaderHeld := frames)
    }

    predicate IsUploader(token: Token) {
      uploader.Some? && uploader.value.token == token
    }

    predicate IsDownloader(token: Token) {
      downloader.Connected? && downloader.token == token
    }
  }

  function Initial(metadata: string): Session {
    Session(metadata, DownloaderSlot.Disconnected, None, Nothing, None, None, [], [])
  }

  datatype Command =
    | Metadata(reply: Reply)
    | StartDownload(token: Token, position: Position, reply: Reply)
    | FinishDownload(reply: Reply)
    | CheckStartUpload(position: Position, reply: Reply)
    | StartUpload(token: Token, position: Position, reply: Reply)
    | UploadData(token: Token, chunk: Chunk, reply: Reply)
    | FlushUpload(token: Token, reply: Reply)
    | StartWebsocket(direction: Direction, token: Token, reply: Reply)
    | WebsocketData(direction: Direction, frame: Frame)
    | Disconnected(token: Token, peer: Peer)

  /** A message for a websocket. A progress ack is a binary frame on the wire; its encoding is
      not part of this model. */
  datatype SocketCommand = Send(frame: Frame) | Ack(offset: Position) | SessionError

  /** One message put on a channel, or a reply channel dropped without an answer. */
  datatype Effect =
    | Event(to: Token, event: DownloadEvent)
    | Answer(reply: Reply, result: UploadResult)
    | Done(reply: Reply)
    | Described(reply: Reply, metadata: string)
    | Abandon(reply: Reply)
    | Socket(direction: Direction, to: Token, command: SocketCommand)

  datatype Outcome = Outcome(state: Session, effects: seq<Effect>, stop: bool)
  {
    function After(before: seq<Effect>): Outcome {
      this.(effects := before + effects)
    }
  }

  function ReplyTo(waiter: Option<Reply>, result: UploadResult): seq<Effect> {
    if waiter.Some? then [Answer(waiter.value, result)] else []
  }

  function Progress(uploaderWs: Option<Token>, position: Position): seq<Effect> {
    if uploaderWs.Some? then [Socket(Upload, uploaderWs.value, Ack(position))] else []
  }

  /** Tells a downloader that is being displaced. */
  function Replaced(slot: DownloaderSlot): seq<Effect> {
    if slot.Connected? then [Event(slot.token, DownloadEvent.ConnectionReplaced)] else []
  }

  /** Tells the registered uploader of an error: the call it has parked is answered, or, with
      nothing parked, the error waits for it. */
  function Terminate(s: Session, error: UploadError): Outcome {
    if s.uploader.None? then
      Outcome(s, [], false)
    else if s.pending.Data? then
      Outcome(s.(pending := s.pending.(waiter := None), uploader := None),
              ReplyTo(s.pending.waiter, Refused(error)), false)
    else
      Outcome(s.(pending := Error(error)), [], false)
  }

  /** Where a downloader that asked for `position` ends up: past the held chunk when that
      chunk is what it asked for. */
  function DownloaderEntry(s: Session, position: Position): Position {
    if s.pending.Data? && s.pending.position == position then position + s.pending.size else position
  }

  /** What becomes of a held chunk when a downloader connects. */
  function ReleaseHeld(s: Session, token: Token, position: Position): seq<Effect> {
    if !s.pending.Data? then []
    else if s.pending.position == position then
      [Event(token, s.pending.chunk.IntoEvent())]
      + Progress(s.uploaderWs, position + s.pending.size)
      + ReplyTo(s.pending.waiter, Accepted)
    else
      ReplyTo(s.pending.waiter, Refused(Position(position)))
  }

  function OnStartDownload(s: Session, token: Token, position: Position): Outcome {
    var entry := DownloaderEntry(s, position);
    var cleared := s.(pending := Nothing);
    // Nobody is waiting on a cleared session, so ending its upload sends nothing.
    var settled :=
      if s.uploader.Some? && s.uploader.value.position != entry
      then Terminate(cleared, Position(entry)).state
      else cleared;
    Outcome(settled.(downloader := Connected(token, entry)),
            Replaced(s.downloader) + ReleaseHeld(s, token, position), false)
  }

  function OnFinishDownload(s: Session, reply: Reply): Outcome {
    var ended := Terminate(s.(downloader := DownloaderSlot.Finished), UploadError.Finished);
    Outcome(ended.state, Replaced(s.downloader) + ended.effects + [Done(reply)], ended.state.uploader.None?)
  }

  /** Where a start is accepted: at the downloader, and right behind a held chunk. */
  function CheckStart(s: Session, position: Position): UploadResult {
    if s.downloader.Connected? && position != s.downloader.position then
      Refused(Position(s.downloader.position))
    else if s.pending.Data? && position != s.pending.position + s.pending.size then
      Refused(Position(s.pending.position + s.pending.size))
    else
      Accepted
  }

  /** Makes room for a new uploader. */
  function Evict(s: Session): Outcome {
    if s.uploader.None? then Outcome(s, [], false)
    else
      var ended := Terminate(s, UploadError.ConnectionReplaced);
      ended.(state := ended.state.(uploader := None))
  }

  function OnStartUpload(s: Session, token: Token, position: Position, reply: Reply): Outcome {
    var room := Evict(s);
    var checked := CheckStart(room.state, position);
    if checked.Refused? then
      Outcome(room.state, room.effects + [Answer(reply, checked)], false)
    else
      var clean := if room.state.pending.Error? then Nothing else room.state.pending;
      Outcome(room.state.(pending := clean, uploader := Some(Registration(token, position))),
              room.effects + Progress(s.uploaderWs, position) + [Answer(reply, Accepted)], false)
  }

  function OnUploadData(s: Session, token: Token, chunk: Chunk, reply: Reply): Outcome {
    if !s.IsUploader(token) then
      Outcome(s, [Answer(reply, Refused(UploadError.ConnectionReplaced))], false)
    else match s.pending
      case Data(_, _, _, _) => Outcome(s, [Answer(reply, Refused(DataPending))], false)
      case Error(error) => Outcome(s, [Answer(reply, Refused(error))], false)
      case Nothing =>
        var position := s.uploader.value.position;
        var next := position + chunk.Len();
        var moved := s.(uploader := Some(Registration(token, next)));
        if s.downloader.Connected? then
          Outcome(moved.(downloader := Connected(s.downloader.token, next)),
                  [Event(s.downloader.token, chunk.IntoEvent())] + Progress(s.uploaderWs, next)
                  + [Answer(reply, Accepted)], false)
        else
          Outcome(moved.(pending := Data(chunk, Some(reply), position, chunk.Len())), [], false)
  }

  function OnFlushUpload(s: Session, token: Token, reply: Reply): Outcome {
    if !s.IsUploader(token) then
      Outcome(s, [Answer(reply, Refused(UploadError.ConnectionReplaced))], false)
    else match s.pending
      case Error(error) => Outcome(s, [Answer(reply, Refused(error))], false)
      case Data(_, waiter, _, _) =>
        Outcome(s.(pending := s.pending.(waiter := Some(reply))),
                if waiter.Some? then [Abandon(waiter.value)] else [], false)
      case Nothing => Outcome(s, [Answer(reply, Accepted)], false)
  }

  /** Hands a list of frames to one websocket peer. */
  function SendAll(direction: Direction, to: Token, frames: seq<Frame>): seq<Effect> {
    if frames == [] then [] else [Socket(direction, to, Send(frames[0]))] + SendAll(direction, to, frames[1..])
  }

  function OnStartWebsocket(s: Session, direction: Direction, token: Token): Outcome {
    var replaced := if s.Ws(direction).Some? then [Socket(direction, s.Ws(direction).value, SessionError)] else [];
    Outcome(s.WithHeld(direction, []).WithWs(direction, Some(token)),
            SendAll(direction, token, s.Held(direction)) + replaced, false)
  }

  function OnFrame(s: Session, from: Direction, frame: Frame): Outcome {
    var to := from.Opposite();
    if s.Ws(to).Some? then Outcome(s, [Socket(to, s.Ws(to).value, Send(frame))], false)
    else if |s.Held(to)| == MAX_HELD_FRAMES then Outcome(s, [], false)
    else Outcome(s.WithHeld(to, s.Held(to) + [frame]), [], false)
  }

  function OnDisconnected(s: Session, token: Token, peer: Peer): Outcome {
    match peer
    case Downloader(completed) =>
      if !s.IsDownloader(token) then Outcome(s, [], false)
      else if completed then Outcome(s.(downloader := DownloaderSlot.Finished), [], true)
      else Outcome(s.(downloader := DownloaderSlot.Disconnected), [], false)
    case Uploader =>
      if !s.IsUploader(token) then Outcome(s, [], false)
      else if s.downloader.Finished? then Outcome(s.(uploader := None), [], true)
      else Outcome(s.(uploader := None, pending := if s.pending.Error? then Nothing else s.pending), [], false)
    case Websocket(direction) =>
      Outcome(if s.Ws(direction) == Some(token) then s.WithWs(direction, None) else s, [], false)
  }

  function Step(s: Session, command: Command): Outcome {
    match command
    case Metadata(reply) => Outcome(s, [Described(reply, s.metadata)], false)
    case StartDownload(token, position, reply) =>
      var started := OnStartDownload(s, token, position);
      started.(effects := started.effects + [Done(reply)])
    case FinishDownload(reply) => OnFinishDownload(s, reply)
    case CheckStartUpload(position, reply) => Outcome(s, [Answer(reply, CheckStart(s, position))], false)
    case StartUpload(token, position, reply) => OnStartUpload(s, token, position, reply)
    case UploadData(token, chunk, reply) => OnUploadData(s, token, chunk, reply)
    case FlushUpload(token, reply) => OnFlushUpload(s, token, reply)
    case StartWebsocket(direction, token, reply) =>
      var started := OnStartWebsocket(s, direction, token);
      started.(effects := started.effects + [Done(reply)])
    case WebsocketData(direction, frame) => OnFrame(s, direction, frame)
    case Disconnected(token, peer) => OnDisconnected(s, token, peer)
  }
}
