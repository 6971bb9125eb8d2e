// A running session: a `State` updated in place by one method per command. Every method is
// proved to leave the value, and to send the messages, that the functions of `RelaySession` say.
//
// `sent` is everything the session has put on any channel, in order.

module SessionState {
  import opened Base
  import opened RelaySession
  import SessionInvariant

  class State {
    const metadata: string
    var downloader: DownloaderSlot
    var uploader: Option<Registration>
    var pending: Pending
    var uploaderWs: Option<Token>
    var downloaderWs: Option<Token>
    var uploaderHeld: seq<Frame>
    var downloaderHeld: seq<Frame>
    var sent: seq<Effect>

    function Value(): Session
      reads this
    {
      Session(metadata, downloader, uploader, pending, uploaderWs, downloaderWs, uploaderHeld, downloaderHeld)
    }

    /** The state and the sent log are those of `outcome`, starting from the log `before`. */
    ghost predicate Reached(outcome: Outcome, before: seq<Effect>)
      reads this
    {
      Value() == outcome.state && sent == before + outcome.effects
    }

    constructor (metadata: string)
      ensures Value() == Initial(metadata) && sent == []
    {
      this.metadata := metadata;
      downloader := DownloaderSlot.Disconnected;
      uploader := None;
      pending := Nothing;
      uploaderWs := None;
      downloaderWs := None;
      uploaderHeld := [];
      downloaderHeld := [];
      sent := [];
    }

    /** Serves the mailbox until a command stops it. */
    method Run(commands: seq<Command>) returns (stopped: bool)
      modifies this
      ensures Reached(SessionInvariant.Run(old(Value()), commands), old(sent))
      ensures stopped == SessionInvariant.Run(old(Value()), commands).stop
    {
      hide Step;
      stopped := false;
      ghost var done := [];
      assert commands[0..] == commands;
      for i := 0 to |commands|
        invariant !stopped && sent == old(sent) + done
        invariant SessionInvariant.Run(old(Value()), commands)
               == SessionInvariant.Run(Value(), commands[i..]).After(done)
      {
        ghost var step := Step(Value(), commands[i]);
        assert commands[i..][0] == commands[i] && commands[i..][1..] == commands[i + 1..];
        stopped := Handle(commands[i]);
        if stopped {
          return;
        }
        assert done + (step.effects + SessionInvariant.Run(Value(), commands[i + 1..]).effects)
            == (done + step.effects) + SessionInvariant.Run(Value(), commands[i + 1..]).effects;
        done := done + step.effects;
      }
      assert commands[|commands|..] == [];
    }

    /** Serves one command; true when the session must stop. */
    method Handle(command: Command) returns (stop: bool)
      modifies this
      ensures Reached(Step(old(Value()), command), old(sent))
      ensures stop == Step(old(Value()), command).stop
    {
      stop := false;
      match command
      case Metadata(reply) =>
        sent := sent + [Described(reply, metadata)];
      case StartDownload(token, position, reply) =>
        StartDownload(token, position);
        sent := sent + [Done(reply)];
      case FinishDownload(reply) =>
        stop := FinishDownload(reply);
      case CheckStartUpload(position, reply) =>
        var checked := CheckStartPosition(position);
        sent := sent + [Answer(reply, checked)];
      case StartUpload(token, position, reply) =>
        StartUpload(token, position, reply);
      case UploadData(token, chunk, reply) =>
        UploadData(token, chunk, reply);
      case FlushUpload(token, reply) =>
        FlushUpload(token, reply);
      case StartWebsocket(direction, token, reply) =>
        StartWebsocket(direction, token);
        sent := sent + [Done(reply)];
      case WebsocketData(direction, frame) =>
        RelayFrame(direction, frame);
      case Disconnected(token, peer) =>
        stop := Disconnected(token, peer);
    }

    method StartDownload(token: Token, position: Position)
      modifies this
      ensures Reached(OnStartDownload(old(Value()), token, position), old(sent))
    {
      ghost var start := Value();
      DisplaceDownloader(DownloaderSlot.Disconnected);
      assert Value() == start.(downloader := DownloaderSlot.Disconnected);
      var entry := ReleaseHeldChunk(token, position);
      assert sent == old(sent) + (Replaced(start.downloader) + ReleaseHeld(start, token, position));
      if uploader.Some? && uploader.value.position != entry {
        TerminateUploader(Position(entry));
      }
      downloader := Connected(token, entry);
    }

    /** Replaces the downloader slot, telling a downloader that is being displaced. */
    method DisplaceDownloader(slot: DownloaderSlot)
      modifies this`downloader, this`sent
      ensures downloader == slot && sent == old(sent) + Replaced(old(downloader))
    {
      var replaced := downloader;
      downloader := slot;
      if replaced.Connected? {
        sent := sent + [Event(replaced.token, DownloadEvent.ConnectionReplaced)];
      }
    }

    /** Takes whatever is pending. A held chunk goes to the new downloader if it is what that
        downloader asked for; either way its waiter is answered. */
    method ReleaseHeldChunk(token: Token, position: Position) returns (entry: Position)
      modifies this`pending, this`sent
      ensures pending == Nothing && entry == DownloaderEntry(old(Value()), position)
      ensures sent == old(sent) + ReleaseHeld(old(Value()), token, position)
    {
      var held := pending;
      pending := Nothing;
      entry := position;
      if held.Data? {
        if entry == held.position {
          entry := entry + held.size;
          sent := sent + [Event(token, held.chunk.IntoEvent())];
          SendProgress(entry);
          AnswerWaiter(held.waiter, Accepted);
        } else {
          AnswerWaiter(held.waiter, Refused(Position(entry)));
        }
      }
    }

    method FinishDownload(reply: Reply) returns (stop: bool)
      modifies this
      ensures Reached(OnFinishDownload(old(Value()), reply), old(sent))
      ensures stop == OnFinishDownload(old(Value()), reply).stop
    {
      DisplaceDownloader(DownloaderSlot.Finished);
      TerminateUploader(UploadError.Finished);
      sent := sent + [Done(reply)];
      stop := uploader.None?;
    }

    method StartUpload(token: Token, position: Position, reply: Reply)
      modifies this
      ensures Reached(OnStartUpload(old(Value()), token, position, reply), old(sent))
    {
      if uploader.Some? {
        TerminateUploader(UploadError.ConnectionReplaced);
        uploader := None;
      }
      assert Reached(Evict(old(Value())), old(sent));

      var checked := CheckStartPosition(position);
      if checked.Refused? {
        sent := sent + [Answer(reply, checked)];
        return;
      }
      if pending.Error? {
        pending := Nothing;
      }
      SendProgress(position);
      uploader := Some(Registration(token, position));
      sent := sent + [Answer(reply, Accepted)];
    }

    method CheckStartPosition(position: Position) returns (checked: UploadResult)
      ensures checked == CheckStart(Value(), position)
    {
      if downloader.Connected? {
        if position != downloader.position {
          return Refused(Position(downloader.position));
        }
      }
      if pending.Data? {
        var expected := pending.position + pending.size;
        if position != expected {
          return Refused(Position(expected));
        }
      }
      checked := Accepted;
    }

    method UploadData(token: Token, chunk: Chunk, reply: Reply)
      modifies this
      ensures Reached(OnUploadData(old(Value()), token, chunk, reply), old(sent))
    {
      if !Value().IsUploader(token) {
        sent := sent + [Answer(reply, Refused(UploadError.ConnectionReplaced))];
        return;
      }
      match pending {
        case Data(_, _, _, _) =>
          sent := sent + [Answer(reply, Refused(DataPending))];
          return;
        case Error(error) =>
          sent := sent + [Answer(reply, Refused(error))];
          return;
        case Nothing =>
      }

      var size := chunk.Len();
      var position := uploader.value.position;
      uploader := Some(uploader.value.(position := position + size));
      if downloader.Connected? {
        downloader := downloader.(position := position + size);
        sent := sent + [Event(downloader.token, chunk.IntoEvent())];
        SendProgress(position + size);
        sent := sent + [Answer(reply, Accepted)];
      } else {
        pending := Data(chunk, Some(reply), position, size);
      }
    }

    method FlushUpload(token: Token, reply: Reply)
      modifies this
      ensures Reached(OnFlushUpload(old(Value()), token, reply), old(sent))
    {
      if !Value().IsUploader(token) {
        sent := sent + [Answer(reply, Refused(UploadError.ConnectionReplaced))];
        return;
      }
      match pending {
        case Error(error) =>
          sent := sent + [Answer(reply, Refused(error))];
        case Data(_, waiter, _, _) =>
          // Overwriting the waiter drops its reply channel.
          if waiter.Some? {
            sent := sent + [Abandon(waiter.value)];
          }
          pending := pending.(waiter := Some(reply));
        case Nothing =>
          sent := sent + [Answer(reply, Accepted)];
      }
    }

    method StartWebsocket(direction: Direction, token: Token)
      modifies this
      ensures Reached(OnStartWebsocket(old(Value()), direction, token), old(sent))
    {
      var held := Value().Held(direction);
      SetHeld(direction, []);
      SendHeld(direction, token, held);
      var replaced := Value().Ws(direction);
      SetWs(direction, Some(token));
      if replaced.Some? {
        sent := sent + [Socket(direction, replaced.value, SessionError)];
      }
    }

    method SendHeld(direction: Direction, token: Token, held: seq<Frame>)
      modifies this`sent
      ensures sent == old(sent) + SendAll(direction, token, held)
    {
      for i := 0 to |held|
        invariant sent + SendAll(direction, token, held[i..]) == old(sent) + SendAll(direction, token, held)
      {
        assert held[i..][0] == held[i] && held[i..][1..] == held[i + 1..];
        sent := sent + [Socket(direction, token, Send(held[i]))];
      }
      assert held[|held|..] == [];
    }

    method RelayFrame(source: Direction, frame: Frame)
      modifies this
      ensures Reached(OnFrame(old(Value()), source, frame), old(sent))
    {
      var target := source.Opposite();
      var peer := Value().Ws(target);
      if peer.Some? {
        sent := sent + [Socket(target, peer.value, Send(frame))];
      } else {
        HoldFrame(target, frame);
      }
    }

    /** Keeps a frame for an absent peer, unless enough are kept already. */
    method HoldFrame(target: Direction, frame: Frame)
      modifies this
      ensures sent == old(sent)
      ensures Value() == if |old(Value()).Held(target)| == MAX_HELD_FRAMES then old(Value())
                         else old(Value()).WithHeld(target, old(Value()).Held(target) + [frame])
    {
      var held := Value().Held(target);
      if |held| == MAX_HELD_FRAMES {
        return;
      }
      SetHeld(target, held + [frame]);
    }

    method Disconnected(token: Token, peer: Peer) returns (stop: bool)
      modifies this
      ensures Reached(OnDisconnected(old(Value()), token, peer), old(sent))
      ensures stop == OnDisconnected(old(Value()), token, peer).stop
    {
      match peer {
        case Downloader(completed) =>
          if !Value().IsDownloader(token) {
            return false;
          }
          if completed {
            downloader := DownloaderSlot.Finished;
            return true;
          }
          downloader := DownloaderSlot.Disconnected;
        case Uploader =>
          if !Value().IsUploader(token) {
            return false;
          }
          uploader := None;
          if downloader.Finished? {
            return true;
          }
          if pending.Error? {
            pending := Nothing;
          }
        case Websocket(direction) =>
          if Value().Ws(direction) == Some(token) {
            SetWs(direction, None);
          }
      }
      stop := false;
    }

    method TerminateUploader(error: UploadError)
      modifies this
      ensures Reached(Terminate(old(Value()), error), old(sent))
    {
      if uploader.None? {
        return;
      }
      if pending.Data? {
        var waiter := pending.waiter;
        pending := pending.(waiter := None);
        AnswerWaiter(waiter, Refused(error));
        uploader := None;
      } else {
        pending := Error(error);
      }
    }

    method AnswerWaiter(waiter: Option<Reply>, result: UploadResult)
      modifies this`sent
      ensures sent == old(sent) + ReplyTo(waiter, result)
    {
      if waiter.Some? {
        sent := sent + [Answer(waiter.value, result)];
      }
    }

    method SendProgress(position: Position)
      modifies this`sent
      ensures sent == old(sent) + Progress(uploaderWs, position)
    {
      if uploaderWs.Some? {
        sent := sent + [Socket(Upload, uploaderWs.value, Ack(position))];
      }
    }

    method SetWs(direction: Direction, peer: Option<Token>)
      modifies this`uploaderWs, this`downloaderWs
      ensures Value() == old(Value()).WithWs(direction, peer)
    {
      match direction
      case Upload => uploaderWs := peer;
      case Download => downloaderWs := peer;
    }

    method SetHeld(direction: Direction, frames: seq<Frame>)
      modifies this`uploaderHeld, this`downloaderHeld
      ensures Value() == old(Value()).WithHeld(direction, frames)
    {
      match direction
      case Upload => uploaderHeld := frames;
      case Download => downloaderHeld := frames;
    }
  }
}
