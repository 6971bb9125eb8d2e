// One step at a time: what it acknowledges, delivers, answers and signals.

module SessionSteps {
  import opened Base
  import opened RelaySession
  import opened Effects
  import opened SessionReadings

  /** The step takes a chunk from an uploader without refusing it. */
  predicate Accepts(s: Session, command: Command) {
    command.UploadData? && s.IsUploader(command.token) && s.pending.Nothing?
  }

  /** The downloader, if any, that is told it has been displaced. */
  function Displaced(s: Session, command: Command): Option<Token> {
    if (command.StartDownload? || command.FinishDownload?) && s.downloader.Connected?
    then Some(s.downloader.token) else None
  }

  /** The chunk handed to a downloader by this step, and to whom. */
  function Handed(s: Session, command: Command): Option<(Token, Chunk)> {
    match command
    case StartDownload(token, position, _) =>
      if s.pending.Data? && s.pending.position == position then Some((token, s.pending.chunk)) else None
    case UploadData(token, chunk, _) =>
      if HandsOver(s, token) then Some((s.downloader.token, chunk)) else None
    case _ => None
  }

  /** The progress acknowledged by this step. */
  function Acked(s: Session, command: Command): Option<Position> {
    if s.uploaderWs.None? then None
    else match command
      case StartDownload(token, position, _) =>
        if s.pending.Data? && s.pending.position == position then Some(position + s.pending.size) else None
      case StartUpload(_, position, _) =>
        if CheckStart(s, position).Accepted? then Some(position) else None
      case UploadData(token, chunk, _) =>
        if HandsOver(s, token) then Some(s.uploader.value.position + chunk.Len()) else None
      case _ => None
  }

  /** The waiter of a held chunk, when this step answers it, and the answer. */
  function Released(s: Session, command: Command): Option<UploadResult> {
    if !s.pending.Data? || s.pending.waiter.None? then None
    else match command
      case StartDownload(_, position, _) =>
        Some(if s.pending.position == position then Accepted else Refused(Position(position)))
      case FinishDownload(_) => if s.uploader.Some? then Some(Refused(UploadError.Finished)) else None
      case StartUpload(_, _, _) => if s.uploader.Some? then Some(Refused(UploadError.ConnectionReplaced)) else None
      case _ => None
  }

  /** What the step answers on an upload-side command's own reply channel. */
  function Own(s: Session, command: Command): Option<UploadResult> {
    match command
    case CheckStartUpload(position, _) => Some(CheckStart(s, position))
    case StartUpload(_, position, _) => Some(CheckStart(s, position))
    case UploadData(token, _, _) => DataAnswer(s, token)
    case FlushUpload(token, _) =>
      if !s.IsUploader(token) then Some(Refused(UploadError.ConnectionReplaced))
      else (match s.pending
            case Error(error) => Some(Refused(error))
            case Data(_, _, _, _) => None
            case Nothing => Some(Accepted))
    case _ => None
  }

  function AsSeq<T>(o: Option<T>): seq<T> {
    if o.Some? then [o.value] else []
  }

  /** `f` of a message, when there is one. */
  function See<T>(e: Option<Effect>, f: Effect -> seq<T>): seq<T> {
    if e.Some? then f(e.value) else []
  }

  function DisplacedEffect(s: Session, command: Command): Option<Effect> {
    if Displaced(s, command).Some?
    then Some(Event(Displaced(s, command).value, DownloadEvent.ConnectionReplaced)) else None
  }

  function HandedEffect(s: Session, command: Command): Option<Effect> {
    if Handed(s, command).Some?
    then Some(Event(Handed(s, command).value.0, Handed(s, command).value.1.IntoEvent())) else None
  }

  function AckedEffect(s: Session, command: Command): Option<Effect> {
    if Acked(s, command).Some? then Some(Socket(Upload, s.uploaderWs.value, Ack(Acked(s, command).value))) else None
  }

  function ReleasedEffect(s: Session, command: Command): Option<Effect> {
    if Released(s, command).Some?
    then Some(Answer(s.pending.waiter.value, Released(s, command).value)) else None
  }

  function OwnEffect(s: Session, command: Command): Option<Effect> {
    if Own(s, command).Some? then Some(Answer(command.reply, Own(s, command).value)) else None
  }

  /** A flush that parks itself drops the waiter it finds. */
  function AbandonedEffect(s: Session, command: Command): Option<Effect> {
    if command.FlushUpload? && Own(s, command).None? && s.pending.waiter.Some?
    then Some(Abandon(s.pending.waiter.value)) else None
  }

  predicate Signals(command: Command) {
    command.StartWebsocket? || command.WebsocketData?
  }

  /** What a reading that ignores signalling sees of a step. */
  function Seen<T>(s: Session, command: Command, f: Effect -> seq<T>): seq<T> {
    match command
    case Metadata(reply) => f(Described(reply, s.metadata))
    case StartDownload(_, _, reply) =>
      See(DisplacedEffect(s, command), f) + See(HandedEffect(s, command), f) + See(AckedEffect(s, command), f)
      + See(ReleasedEffect(s, command), f) + f(Done(reply))
    case FinishDownload(reply) =>
      See(DisplacedEffect(s, command), f) + See(ReleasedEffect(s, command), f) + f(Done(reply))
    case CheckStartUpload(_, _) => See(OwnEffect(s, command), f)
    case StartUpload(_, _, _) =>
      See(ReleasedEffect(s, command), f) + See(AckedEffect(s, command), f) + See(OwnEffect(s, command), f)
    case UploadData(_, _, _) =>
      See(HandedEffect(s, command), f) + See(AckedEffect(s, command), f) + See(OwnEffect(s, command), f)
    case FlushUpload(_, _) => See(OwnEffect(s, command), f) + See(AbandonedEffect(s, command), f)
    case StartWebsocket(_, _, reply) => f(Done(reply))
    case WebsocketData(_, _) => []
    case Disconnected(_, _) => []
  }

  /** A reading that looks at no frame and no error sent to a websocket. */
  ghost predicate IgnoresSignalling<T>(f: Effect -> seq<T>) {
    && (forall direction, to, frame :: f(Socket(direction, to, Send(frame))) == [])
    && (forall direction, to :: f(Socket(direction, to, SessionError)) == [])
  }

  lemma ReleaseSeen<T>(s: Session, token: Token, position: Position, reply: Reply, f: Effect -> seq<T>)
    ensures
      var command := StartDownload(token, position, reply);
      Project(ReleaseHeld(s, token, position), f)
      == See(HandedEffect(s, command), f) + See(AckedEffect(s, command), f) + See(ReleasedEffect(s, command), f)
  {
    hide Project, ReleaseHeld;
    var command := StartDownload(token, position, reply);
    ReleaseReads(s, token, position, f);
    if !s.pending.Data? || s.pending.position != position {
      assert HandedEffect(s, command).None? && AckedEffect(s, command).None?;
    }
  }

  lemma StartDownloadSeen<T>(s: Session, token: Token, position: Position, reply: Reply, f: Effect -> seq<T>)
    ensures Project(Replaced(s.downloader), f) + Project(ReleaseHeld(s, token, position), f) + f(Done(reply))
         == Seen(s, StartDownload(token, position, reply), f)
  {
    var command := StartDownload(token, position, reply);
    ReplacedReads(s.downloader, f);
    assert Project(Replaced(s.downloader), f) == See(DisplacedEffect(s, command), f);
    ReleaseSeen(s, token, position, reply, f);
  }

  lemma UploadStepSeen<T>(s: Session, command: Command, f: Effect -> seq<T>)
    requires command.StartUpload? || command.UploadData? || command.FlushUpload?
    ensures Project(Step(s, command).effects, f) == Seen(s, command, f)
  {
    match command
    case StartUpload(token, position, reply) => StartUploadReads(s, token, position, reply, f);
    case UploadData(token, chunk, reply) => UploadDataReads(s, token, chunk, reply, f);
    case FlushUpload(token, reply) => FlushUploadReads(s, token, reply, f);
  }

  lemma StepSeen<T>(s: Session, command: Command, f: Effect -> seq<T>)
    requires IgnoresSignalling(f) || !Signals(command)
    ensures Project(Step(s, command).effects, f) == Seen(s, command, f)
  {
    match command
    case Metadata(reply) => ProjectOne(Described(reply, s.metadata), f);
    case StartDownload(token, position, reply) =>
      StartDownloadReads(s, token, position, reply, f);
      StartDownloadSeen(s, token, position, reply, f);
    case FinishDownload(reply) =>
      FinishDownloadReads(s, reply, f);
      ReplacedReads(s.downloader, f);
    case CheckStartUpload(position, reply) => ProjectOne(Answer(reply, CheckStart(s, position)), f);
    case StartUpload(_, _, _) => UploadStepSeen(s, command, f);
    case UploadData(_, _, _) => UploadStepSeen(s, command, f);
    case FlushUpload(_, _) => UploadStepSeen(s, command, f);
    case StartWebsocket(direction, token, reply) =>
      StartWebsocketReads(s, direction, token, reply, f);
      SendAllUnseen(direction, token, s.Held(direction), f);
    case WebsocketData(direction, frame) => FrameReads(s, direction, frame, f);
    case Disconnected(_, _) =>
  }

  lemma SeenAcks(s: Session, command: Command)
    ensures Seen(s, command, AckOf()) == AsSeq(Acked(s, command))
  {
  }

  lemma StepAcks(s: Session, command: Command)
    ensures Acks(Step(s, command).effects) == AsSeq(Acked(s, command))
  {
    StepSeen(s, command, AckOf());
    SeenAcks(s, command);
  }

  /** The events of this step for one downloader. */
  function Delivers(s: Session, command: Command, token: Token): seq<DownloadEvent> {
    (if Displaced(s, command) == Some(token) then [DownloadEvent.ConnectionReplaced] else [])
    + (if Handed(s, command).Some? && Handed(s, command).value.0 == token
       then [Handed(s, command).value.1.IntoEvent()] else [])
  }

  lemma SeenEvents(s: Session, command: Command, token: Token)
    ensures Seen(s, command, EventTo(token)) == Delivers(s, command, token)
  {
  }

  lemma StepEvents(s: Session, command: Command, token: Token)
    ensures EventsTo(Step(s, command).effects, token) == Delivers(s, command, token)
  {
    StepSeen(s, command, EventTo(token));
    SeenEvents(s, command, token);
  }

  lemma SeenChunks(s: Session, command: Command)
    ensures Seen(s, command, ChunkOf()) == if Handed(s, command).Some? then [Handed(s, command).value.1] else []
  {
  }

  lemma StepChunks(s: Session, command: Command)
    ensures ChunksOf(Step(s, command).effects) == if Handed(s, command).Some? then [Handed(s, command).value.1] else []
  {
    StepSeen(s, command, ChunkOf());
    SeenChunks(s, command);
  }

  /** The answers of this step on one reply channel. */
  function Answers(s: Session, command: Command, reply: Reply): seq<UploadResult> {
    (if Released(s, command).Some? && s.pending.waiter == Some(reply) then [Released(s, command).value] else [])
    + (if Own(s, command).Some? && command.reply == reply then [Own(s, command).value] else [])
  }

  lemma SeenAnswers(s: Session, command: Command, reply: Reply)
    ensures Seen(s, command, AnswerTo(reply)) == Answers(s, command, reply)
  {
  }

  lemma StepAnswers(s: Session, command: Command, reply: Reply)
    ensures AnswersTo(Step(s, command).effects, reply) == Answers(s, command, reply)
  {
    StepSeen(s, command, AnswerTo(reply));
    SeenAnswers(s, command, reply);
  }

  /** How often a reply channel is parked with the held chunk. */
  function Parked(s: Session, reply: Reply): nat {
    if s.pending.Data? && s.pending.waiter == Some(reply) then 1 else 0
  }

  function Carries(command: Command, reply: Reply): nat {
    if !command.WebsocketData? && !command.Disconnected? && command.reply == reply then 1 else 0
  }

  /** How often a step uses a reply channel. */
  function UseCount(s: Session, command: Command, reply: Reply): nat {
    (if Carries(command, reply) == 1 && !Parks(s, command) then 1 else 0)
    + (if Parked(s, reply) == 1 && (Released(s, command).Some? || AbandonedEffect(s, command).Some?) then 1 else 0)
  }

  /** The command's own reply channel is parked rather than answered. */
  predicate Parks(s: Session, command: Command) {
    (command.UploadData? || command.FlushUpload?) && Own(s, command).None?
  }

  lemma SeenUses(s: Session, command: Command, reply: Reply)
    ensures |Seen(s, command, UseOf(reply))| == UseCount(s, command, reply)
  {
  }

  lemma StepParks(s: Session, command: Command, reply: Reply)
    ensures Parked(Step(s, command).state, reply)
         == if Parks(s, command) then Carries(command, reply)
            else if Released(s, command).Some? then 0
            else Parked(s, reply)
  {
  }

  /** No reply channel is lost or used twice: one that comes in with a command, or was
      parked, is parked afterwards or has been used, exactly as often. */
  lemma StepConservesReplies(s: Session, command: Command, reply: Reply)
    ensures |Project(Step(s, command).effects, UseOf(reply))| + Parked(Step(s, command).state, reply)
         == Carries(command, reply) + Parked(s, reply)
  {
    StepSeen(s, command, UseOf(reply));
    SeenUses(s, command, reply);
    StepParks(s, command, reply);
  }

  lemma SeenFrames(s: Session, command: Command, of: Direction)
    requires !Signals(command)
    ensures Seen(s, command, FrameTo(of)) == []
  {
  }

  /** The signalling frames this step hands to the peers of one direction. */
  function Signalled(s: Session, command: Command, of: Direction): seq<Frame> {
    match command
    case StartWebsocket(direction, _, _) => if direction == of then s.Held(of) else []
    case WebsocketData(from, frame) => if from != of && s.Ws(of).Some? then [frame] else []
    case _ => []
  }

  lemma StepFrames(s: Session, command: Command, of: Direction)
    ensures FramesTo(Step(s, command).effects, of) == Signalled(s, command, of)
  {
    match command
    case StartWebsocket(direction, token, reply) =>
      StartWebsocketReads(s, direction, token, reply, FrameTo(of));
      SendAllFrames(direction, token, s.Held(direction), of);
    case WebsocketData(from, frame) => FrameReads(s, from, frame, FrameTo(of));
    case _ =>
      StepSeen(s, command, FrameTo(of));
      SeenFrames(s, command, of);
  }
}
