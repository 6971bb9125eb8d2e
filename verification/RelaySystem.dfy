// A whole relay session at work: the session behind its mailbox, any number of upload
// and download requests and websockets, and every order in which they can take their steps.
//
// A request handler has at most one call outstanding, may be dropped wherever it waits, and
// sends `Disconnected` last. Requests carry the headers clients print.

module RelaySystem {
  import opened Base
  import opened RelaySession
  import opened Effects
  import opened Api
  import Range

  // ----- Requests -----

  datatype UploadRequest = UploadRequest(contentRange: Option<string>, body: Bytes)

  /** What a client holding the content sends to upload it from a position on. */
  ghost predicate Honest(content: Bytes, request: UploadRequest) {
    exists position: nat :: HonestFrom(content, request, position)
  }

  predicate HonestFrom(content: Bytes, request: UploadRequest, position: nat) {
    && position <= |content| && |content| >= 1
    && request.contentRange == Some(Range.PrintContentRange(position, |content|))
    && request.body == content[position..]
  }

  /** The relay reads from such a request exactly the position it was made for. */
  lemma HonestIsRead(content: Bytes, request: UploadRequest, position: nat)
    requires |content| < U64_LIMIT && HonestFrom(content, request, position)
    ensures Range.UploadPositionOf(request.contentRange) == Success(position)
  {
    hide Range.UploadPositionOf;
    Range.ContentRangeRoundTrips(position, |content|);
  }

  // ----- Handlers -----

  datatype UploadPc = Starting | Flushing | Reading | Sending

  /** An upload request, for `pieces` from `start` on: `position` is where `chunks`, the chunks
      not yet accepted, begin; `calls` counts the calls it has made. */
  datatype UploadHandler = UploadHandler(
    start: Position,
    pieces: seq<Bytes>,
    position: Position,
    chunks: seq<Chunk>,
    pc: UploadPc,
    calls: nat,
    alive: bool,
    response: Option<Response>)

  /** The reply channel of a handler's last call. */
  function LastReply(token: Token, h: UploadHandler): Reply
    requires h.calls >= 1
  {
    Reply(token, h.calls - 1)
  }

  /** The call a handler is waiting on. */
  function LastCall(token: Token, h: UploadHandler): Command
    requires h.calls >= 1 && h.pc != Reading && h.chunks != []
  {
    match h.pc
    case Starting => StartUpload(token, h.position, LastReply(token, h))
    case Flushing => FlushUpload(token, LastReply(token, h))
    case Sending => UploadData(token, h.chunks[0], LastReply(token, h))
  }

  /** A request dropped before it was answered never had a guard; one that streamed and closed
      has said goodbye. */
  datatype DownloadPhase = Requested | Streaming | Closed | Dropped
  {
    predicate Over() { Closed? || Dropped? }
  }

  /** A download request: `taken` counts the events its body has read. */
  datatype DownloadHandler = DownloadHandler(
    range: Option<string>,
    start: Position,
    phase: DownloadPhase,
    taken: nat,
    completed: bool)

  // ----- The system -----

  datatype System = System(
    session: Session,
    running: bool,
    mailbox: seq<Command>,
    log: seq<Effect>,
    issued: set<Reply>,
    nextToken: Token,
    uploads: map<Token, UploadHandler>,
    downloads: map<Token, DownloadHandler>,
    sockets: map<Token, Direction>)

  function Start(metadata: string): System {
    System(Initial(metadata), true, [], [], {}, 0, map[], map[], map[])
  }

  datatype Action =
    | PostUpload(request: UploadRequest, pieces: seq<Bytes>)
    | UploadAnswered(token: Token)
    | UploadBodyReady(token: Token)
    | UploadDropped(token: Token)
    | GetContent(range: Option<string>)
    | DownloadAnswered(token: Token)
    | DownloadPolled(token: Token)
    | DownloadDropped(token: Token)
    | PostStart(position: Position)
    | GetMetadata
    | OpenSocket(direction: Direction)
    | SocketFrame(token: Token, frame: Frame)
    | CloseSocket(token: Token)
    | Serve

  /** Puts a command in the mailbox of a session that is still there. */
  function Post(s: System, command: Command): System {
    if !s.running then s
    else s.(mailbox := s.mailbox + [command],
            issued := if command.WebsocketData? || command.Disconnected? then s.issued else s.issued + {command.reply})
  }

  /** The session's answer to an upload call: the one it sent, or not-found once it is gone. */
  function AnswerFor(s: System, reply: Reply): Option<UploadResult> {
    if AnswersTo(s.log, reply) != [] then Some(AnswersTo(s.log, reply)[0])
    else if !s.running then Some(Refused(NotFound))
    else None
  }

  /** An upload request ends: its guard tells the session. */
  function EndUpload(s: System, token: Token, h: UploadHandler, response: Option<Response>): System {
    Post(s.(uploads := s.uploads[token := h.(alive := false, response := response)]),
         Command.Disconnected(token, Uploader))
  }

  function CallNext(s: System, token: Token, h: UploadHandler, pc: UploadPc): System
    requires h.calls >= 1 && h.chunks != [] && pc != Reading
  {
    var calling := h.(pc := pc, calls := h.calls + 1);
    Post(s.(uploads := s.uploads[token := calling]), LastCall(token, calling))
  }

  /** A live upload request that has been answered moves on. */
  function OnUploadAnswer(s: System, token: Token, h: UploadHandler, answer: UploadResult): System
    requires h.calls >= 1 && h.chunks != []
  {
    if answer.Refused? then EndUpload(s, token, h, Some(UploadErrorResponse(answer.error)))
    else match h.pc
      case Starting => CallNext(s, token, h, Flushing)
      case Flushing => s.(uploads := s.uploads[token := h.(pc := Reading)])
      case Reading => s
      case Sending =>
        if |h.chunks| == 1 then EndUpload(s, token, h, Some(Ok))
        else
          var moved := h.(position := h.position + h.chunks[0].Len(), chunks := h.chunks[1..], pc := Reading);
          s.(uploads := s.uploads[token := moved])
  }

  function EndDownload(s: System, token: Token, d: DownloadHandler): System {
    if d.phase.Streaming? then
      Post(s.(downloads := s.downloads[token := d.(phase := Closed)]),
           Command.Disconnected(token, Downloader(d.completed)))
    else s.(downloads := s.downloads[token := d.(phase := Dropped)])
  }

  /** The body reads its next event. */
  function OnDownloadEvent(s: System, token: Token, d: DownloadHandler, event: DownloadEvent): System {
    if Polling(event).Ended? then EndDownload(s, token, d)
    else s.(downloads := s.downloads[token := d.(taken := d.taken + 1, completed := event.Final?)])
  }

  function OnServe(s: System): System
    requires s.running && s.mailbox != []
  {
    var outcome := Step(s.session, s.mailbox[0]);
    s.(session := outcome.state,
       running := !outcome.stop,
       mailbox := if outcome.stop then [] else s.mailbox[1..],
       log := s.log + outcome.effects)
  }

  predicate LiveUpload(s: System, token: Token) {
    token in s.uploads && s.uploads[token].alive && s.uploads[token].calls >= 1 && s.uploads[token].chunks != []
  }

  /** What one action does; an action that is not possible does nothing. */
  ghost function Apply(content: Bytes, s: System, action: Action): System {
    var next := s.nextToken;
    var s1 := s.(nextToken := next + 1);
    var call := Reply(next, 0);
    match action
    case PostUpload(request, pieces) =>
      if !Honest(content, request) || Concat(pieces) != request.body then s
      else (match Range.UploadPositionOf(request.contentRange)
            case Failure(_) => s
            case Success(position) =>
              var h := UploadHandler(position, pieces, position, Chunked(pieces), Starting, 1, true, None);
              Post(s1.(uploads := s1.uploads[next := h]), LastCall(next, h)))
    case UploadAnswered(token) =>
      if !LiveUpload(s, token) || s.uploads[token].pc == Reading then s
      else
        var answer := AnswerFor(s, LastReply(token, s.uploads[token]));
        if answer.None? then s else OnUploadAnswer(s, token, s.uploads[token], answer.value)
    case UploadBodyReady(token) =>
      if !LiveUpload(s, token) || s.uploads[token].pc != Reading then s
      else CallNext(s, token, s.uploads[token], Sending)
    case UploadDropped(token) =>
      if !LiveUpload(s, token) then s else EndUpload(s, token, s.uploads[token], None)
    case GetContent(range) =>
      (match Range.DownloadPositionOf(range)
       case Failure(_) => s
       case Success(Eof) => Post(s1, FinishDownload(call))
       case Success(At(position)) =>
         Post(s1.(downloads := s1.downloads[next := DownloadHandler(range, position, Requested, 0, false)]),
              StartDownload(next, position, call)))
    case DownloadAnswered(token) =>
      if token !in s.downloads || !s.downloads[token].phase.Requested? then s
      else if Project(s.log, UseOf(Reply(token, 0))) != [] then
        s.(downloads := s.downloads[token := s.downloads[token].(phase := Streaming)])
      else if !s.running then s.(downloads := s.downloads[token := s.downloads[token].(phase := Dropped)])
      else s
    case DownloadPolled(token) =>
      if token !in s.downloads || !s.downloads[token].phase.Streaming? || s.downloads[token].completed
         || s.downloads[token].taken >= |EventsTo(s.log, token)| then s
      else OnDownloadEvent(s, token, s.downloads[token], EventsTo(s.log, token)[s.downloads[token].taken])
    case DownloadDropped(token) =>
      if token !in s.downloads || s.downloads[token].phase.Over() then s
      else EndDownload(s, token, s.downloads[token])
    case PostStart(position) => Post(s1, CheckStartUpload(position, call))
    case GetMetadata => Post(s1, Metadata(call))
    case OpenSocket(direction) =>
      Post(s1.(sockets := s1.sockets[next := direction]), StartWebsocket(direction, next, call))
    case SocketFrame(token, frame) =>
      if token in s.sockets then Post(s, WebsocketData(s.sockets[token], frame)) else s
    case CloseSocket(token) =>
      if token in s.sockets then
        Post(s.(sockets := s.sockets - {token}), Command.Disconnected(token, Websocket(s.sockets[token])))
      else s
    case Serve => if s.running && s.mailbox != [] then OnServe(s) else s
  }

  /** A run of the system. */
  ghost function Exec(content: Bytes, s: System, actions: seq<Action>): System
    decreases |actions|
  {
    if actions == [] then s else Exec(content, Apply(content, s, actions[0]), actions[1..])
  }

  // ----- One connection's commands -----

  /** The connection a command comes from. Signalling frames are nobody's. */
  function Sender(command: Command): Option<Token> {
    match command
    case WebsocketData(_, _) => None
    case Disconnected(token, _) => Some(token)
    case _ => Some(command.reply.connection)
  }

  /** A command that names a token names its sender. */
  predicate Tagged(command: Command) {
    match command
    case StartDownload(token, _, reply) => token == reply.connection
    case StartUpload(token, _, reply) => token == reply.connection
    case UploadData(token, _, reply) => token == reply.connection
    case FlushUpload(token, reply) => token == reply.connection
    case StartWebsocket(_, token, reply) => token == reply.connection
    case _ => true
  }

  function FromSender(commands: seq<Command>, token: Token): seq<Command> {
    if commands == [] then []
    else (if Sender(commands[0]) == Some(token) then [commands[0]] else []) + FromSender(commands[1..], token)
  }

  lemma {:induction false} FromSenderAppend(commands: seq<Command>, command: Command, token: Token)
    ensures FromSender(commands + [command], token)
         == FromSender(commands, token) + if Sender(command) == Some(token) then [command] else []
  {
    var last := if Sender(command) == Some(token) then [command] else [];
    if commands == [] {
      assert commands + [command] == [command];
      assert FromSender([command][1..], token) == [];
    } else {
      assert (commands + [command])[1..] == commands[1..] + [command];
      FromSenderAppend(commands[1..], command, token);
      var first := if Sender(commands[0]) == Some(token) then [commands[0]] else [];
      var rest := FromSender(commands[1..], token);
      assert FromSender(commands + [command], token) == first + (rest + last);
      assert first + (rest + last) == (first + rest) + last;
    }
  }
}
