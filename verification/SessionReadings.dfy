// What each kind of channel sees of one step, computed without reading the effect list:
// progress acks, events to one downloader, chunks handed over, frames, and answers.

module SessionReadings {
  import opened Base
  import opened RelaySession
  import opened Effects

  /** A projection of the pieces every effect list is made of. */
  lemma ReplyToReads<T>(waiter: Option<Reply>, result: UploadResult, f: Effect -> seq<T>)
    ensures Project(ReplyTo(waiter, result), f) == if waiter.Some? then f(Answer(waiter.value, result)) else []
  {
    if waiter.Some? { ProjectOne(Answer(waiter.value, result), f); }
  }

  lemma ProgressReads<T>(ws: Option<Token>, position: Position, f: Effect -> seq<T>)
    ensures Project(Progress(ws, position), f) == if ws.Some? then f(Socket(Upload, ws.value, Ack(position))) else []
  {
    if ws.Some? { ProjectOne(Socket(Upload, ws.value, Ack(position)), f); }
  }

  lemma ReplacedReads<T>(slot: DownloaderSlot, f: Effect -> seq<T>)
    ensures Project(Replaced(slot), f)
         == if slot.Connected? then f(Event(slot.token, DownloadEvent.ConnectionReplaced)) else []
  {
    if slot.Connected? { ProjectOne(Event(slot.token, DownloadEvent.ConnectionReplaced), f); }
  }

  lemma ReleaseReads<T>(s: Session, token: Token, position: Position, f: Effect -> seq<T>)
    ensures Project(ReleaseHeld(s, token, position), f) ==
      if !s.pending.Data? then []
      else if s.pending.position == position then
        f(Event(token, s.pending.chunk.IntoEvent()))
        + (if s.uploaderWs.Some? then f(Socket(Upload, s.uploaderWs.value, Ack(position + s.pending.size))) else [])
        + (if s.pending.waiter.Some? then f(Answer(s.pending.waiter.value, Accepted)) else [])
      else if s.pending.waiter.Some? then f(Answer(s.pending.waiter.value, Refused(Position(position)))) else []
  {
    if s.pending.Data? {
      if s.pending.position == position {
        var handed := [Event(token, s.pending.chunk.IntoEvent())];
        var acked := Progress(s.uploaderWs, position + s.pending.size);
        ProjectAppend(handed + acked, ReplyTo(s.pending.waiter, Accepted), f);
        ProjectAppend(handed, acked, f);
        ProjectOne(handed[0], f);
        ProgressReads(s.uploaderWs, position + s.pending.size, f);
        ReplyToReads(s.pending.waiter, Accepted, f);
      } else {
        ReplyToReads(s.pending.waiter, Refused(Position(position)), f);
      }
    }
  }

  lemma StartDownloadReads<T>(s: Session, token: Token, position: Position, reply: Reply, f: Effect -> seq<T>)
    ensures Project(Step(s, StartDownload(token, position, reply)).effects, f)
         == Project(Replaced(s.downloader), f) + Project(ReleaseHeld(s, token, position), f) + f(Done(reply))
  {
    var started := OnStartDownload(s, token, position).effects;
    ProjectAppend(started, [Done(reply)], f);
    ProjectAppend(Replaced(s.downloader), ReleaseHeld(s, token, position), f);
    ProjectOne(Done(reply), f);
  }

  lemma FinishDownloadReads<T>(s: Session, reply: Reply, f: Effect -> seq<T>)
    ensures Project(OnFinishDownload(s, reply).effects, f)
         == Project(Replaced(s.downloader), f)
            + (if s.uploader.Some? && s.pending.Data? && s.pending.waiter.Some?
               then f(Answer(s.pending.waiter.value, Refused(UploadError.Finished))) else [])
            + f(Done(reply))
  {
    var ended := Terminate(s.(downloader := DownloaderSlot.Finished), UploadError.Finished).effects;
    ProjectAppend(Replaced(s.downloader) + ended, [Done(reply)], f);
    ProjectAppend(Replaced(s.downloader), ended, f);
    ProjectOne(Done(reply), f);
    ReplyToReads(if s.pending.Data? then s.pending.waiter else None, Refused(UploadError.Finished), f);
  }

  lemma StartUploadReads<T>(s: Session, token: Token, position: Position, reply: Reply, f: Effect -> seq<T>)
    ensures Project(OnStartUpload(s, token, position, reply).effects, f)
         == (if s.uploader.Some? && s.pending.Data? && s.pending.waiter.Some?
             then f(Answer(s.pending.waiter.value, Refused(UploadError.ConnectionReplaced))) else [])
            + (if CheckStart(s, position).Accepted? && s.uploaderWs.Some?
               then f(Socket(Upload, s.uploaderWs.value, Ack(position))) else [])
            + f(Answer(reply, CheckStart(s, position)))
  {
    var room := Evict(s);
    var checked := CheckStart(s, position);
    ReplyToReads(if s.pending.Data? then s.pending.waiter else None, Refused(UploadError.ConnectionReplaced), f);
    ProjectOne(Answer(reply, checked), f);
    assert CheckStart(room.state, position) == checked;
    if checked.Accepted? {
      ProgressReads(s.uploaderWs, position, f);
      ProjectAppend(room.effects + Progress(s.uploaderWs, position), [Answer(reply, checked)], f);
      ProjectAppend(room.effects, Progress(s.uploaderWs, position), f);
    } else {
      ProjectAppend(room.effects, [Answer(reply, checked)], f);
    }
  }

  /** A registered uploader's chunk goes straight to a connected downloader. */
  predicate HandsOver(s: Session, token: Token) {
    s.IsUploader(token) && s.pending.Nothing? && s.downloader.Connected?
  }

  /** What a data request is answered at once, if it is not parked. */
  function DataAnswer(s: Session, token: Token): Option<UploadResult> {
    if !s.IsUploader(token) then Some(Refused(UploadError.ConnectionReplaced))
    else match s.pending
      case Data(_, _, _, _) => Some(Refused(DataPending))
      case Error(error) => Some(Refused(error))
      case Nothing => if s.downloader.Connected? then Some(Accepted) else None
  }

  lemma UploadDataReads<T>(s: Session, token: Token, chunk: Chunk, reply: Reply, f: Effect -> seq<T>)
    ensures Project(OnUploadData(s, token, chunk, reply).effects, f)
         == (if HandsOver(s, token) then f(Event(s.downloader.token, chunk.IntoEvent())) else [])
            + (if HandsOver(s, token) && s.uploaderWs.Some?
               then f(Socket(Upload, s.uploaderWs.value, Ack(s.uploader.value.position + chunk.Len()))) else [])
            + (if DataAnswer(s, token).Some? then f(Answer(reply, DataAnswer(s, token).value)) else [])
  {
    if HandsOver(s, token) {
      var handed := [Event(s.downloader.token, chunk.IntoEvent())];
      var acked := Progress(s.uploaderWs, s.uploader.value.position + chunk.Len());
      ProjectAppend(handed + acked, [Answer(reply, Accepted)], f);
      ProjectAppend(handed, acked, f);
      ProjectOne(handed[0], f);
      ProgressReads(s.uploaderWs, s.uploader.value.position + chunk.Len(), f);
      ProjectOne(Answer(reply, Accepted), f);
    } else if DataAnswer(s, token).Some? {
      ProjectOne(Answer(reply, DataAnswer(s, token).value), f);
    }
  }

  lemma FlushUploadReads<T>(s: Session, token: Token, reply: Reply, f: Effect -> seq<T>)
    ensures Project(OnFlushUpload(s, token, reply).effects, f) ==
      if !s.IsUploader(token) then f(Answer(reply, Refused(UploadError.ConnectionReplaced)))
      else match s.pending
        case Error(error) => f(Answer(reply, Refused(error)))
        case Data(_, waiter, _, _) => if waiter.Some? then f(Abandon(waiter.value)) else []
        case Nothing => f(Answer(reply, Accepted))
  {
    var effects := OnFlushUpload(s, token, reply).effects;
    if effects != [] {
      assert effects == [effects[0]];
      ProjectOne(effects[0], f);
    }
  }

  /** A projection that ignores signalling sees nothing of what is sent to the websockets. */
  lemma {:induction false} SendAllUnseen<T>(direction: Direction, to: Token, frames: seq<Frame>, f: Effect -> seq<T>)
    requires forall frame :: f(Socket(direction, to, Send(frame))) == []
    ensures Project(SendAll(direction, to, frames), f) == []
  {
    if frames != [] {
      var first := [Socket(direction, to, Send(frames[0]))];
      ProjectAppend(first, SendAll(direction, to, frames[1..]), f);
      ProjectOne(first[0], f);
      SendAllUnseen(direction, to, frames[1..], f);
    }
  }

  lemma {:induction false} SendAllFrames(direction: Direction, to: Token, frames: seq<Frame>, of: Direction)
    ensures FramesTo(SendAll(direction, to, frames), of) == if direction == of then frames else []
  {
    if frames != [] {
      var first := [Socket(direction, to, Send(frames[0]))];
      ProjectAppend(first, SendAll(direction, to, frames[1..]), FrameTo(of));
      ProjectOne(first[0], FrameTo(of));
      SendAllFrames(direction, to, frames[1..], of);
    }
  }

  lemma StartWebsocketReads<T>(s: Session, direction: Direction, token: Token, reply: Reply, f: Effect -> seq<T>)
    ensures Project(Step(s, StartWebsocket(direction, token, reply)).effects, f)
         == Project(SendAll(direction, token, s.Held(direction)), f)
            + (if s.Ws(direction).Some? then f(Socket(direction, s.Ws(direction).value, SessionError)) else [])
            + f(Done(reply))
  {
    var replaced := if s.Ws(direction).Some? then [Socket(direction, s.Ws(direction).value, SessionError)] else [];
    ProjectAppend(SendAll(direction, token, s.Held(direction)) + replaced, [Done(reply)], f);
    ProjectAppend(SendAll(direction, token, s.Held(direction)), replaced, f);
    ProjectOne(Done(reply), f);
    if s.Ws(direction).Some? { ProjectOne(replaced[0], f); }
  }

  lemma FrameReads<T>(s: Session, from: Direction, frame: Frame, f: Effect -> seq<T>)
    ensures Project(OnFrame(s, from, frame).effects, f)
         == var to := from.Opposite();
            if s.Ws(to).Some? then f(Socket(to, s.Ws(to).value, Send(frame))) else []
  {
    if s.Ws(from.Opposite()).Some? {
      ProjectOne(Socket(from.Opposite(), s.Ws(from.Opposite()).value, Send(frame)), f);
    }
  }
}
