// Everything but serving keeps the relay's invariant: requests arriving, being answered,
// reading, being dropped.

module RelayActions {
  import opened Base
  import opened RelaySession
  import opened Effects
  import opened SessionSteps
  import opened SessionInvariant
  import opened Api
  import opened RelaySystem
  import opened UI = UploadInvariant
  import DI = DownloadInvariant
  import opened RelayInvariant
  import Range

  /** Changing one upload's record touches nothing else. */
  lemma UploadTouches(s: System, s1: System, token: Token)
    requires token in s1.uploads && s.nextToken <= s1.nextToken
    requires s1 == s.(uploads := s.uploads[token := s1.uploads[token]], nextToken := s1.nextToken)
    ensures Touches(s, s1, token)
  {
  }

  lemma UploadKeepsTokens(s: System, s1: System, token: Token)
    requires TokensFit(s) && token in s.uploads && token in s1.uploads && s1.nextToken == s.nextToken
    requires s1.uploads == s.uploads[token := s1.uploads[token]]
    requires s1.downloads == s.downloads && s1.sockets == s.sockets
    ensures TokensFit(s1)
  {
  }

  lemma InvBasics(content: Bytes, s: System)
    requires Inv(content, s)
    ensures TokensFit(s) && IssuedFits(s)
    ensures forall t <- s.uploads :: t < s.nextToken && t !in s.downloads
  {
  }

  /** Changing one download's record touches nothing else. */
  lemma DownloadTouches(s: System, s1: System, token: Token)
    requires token in s1.downloads && s.nextToken <= s1.nextToken
    requires s1 == s.(downloads := s.downloads[token := s1.downloads[token]], nextToken := s1.nextToken)
    ensures Touches(s, s1, token)
  {
  }

  predicate HasReply(command: Command) {
    !command.WebsocketData? && !command.Disconnected?
  }

  /** One connection's own action, which sends one command. */
  lemma PostKeepsInv(content: Bytes, s: System, s1: System, command: Command, token: Token)
    requires Inv(content, s)
    requires Touches(s, s1, token) && s1.mailbox == s.mailbox && s1.issued == s.issued
    requires TokensFit(s1) && IssuedFits(Post(s1, command))
    requires Tagged(command) && (Sender(command) == Some(token) || Sender(command) == None)
    requires HasReply(command) ==> command.reply !in s.issued
    requires token in s1.downloads ==> DownloadLogOk(content, s1, token)
    requires s.running ==> TokenOk(content, Post(s1, command), token)
    ensures Inv(content, Post(s1, command))
  {
    hide TokenOk, DownloadLogOk, Balanced, Consistent, ContentOk;
    var t := Post(s1, command);
    if s.running {
      forall reply: Reply ensures Balanced(t, reply) {
        assert Balanced(s, reply);
        SameBalance(s, s1, reply);
        PostBalances(s1, command, reply);
      }
      assert t.mailbox[|s.mailbox|] == command;
    }
    assert token in t.downloads ==> DownloadLogOk(content, t, token) by {
      if token in t.downloads { SameDownloadLog(content, s1, t, token); }
    }
    TouchKeepsInv(content, s, t, token);
  }

  lemma SameBalance(s: System, t: System, reply: Reply)
    requires Balanced(s, reply)
    requires t.mailbox == s.mailbox && t.session == s.session && t.log == s.log && t.issued == s.issued
    ensures Balanced(t, reply)
  {
  }

  lemma SameDownloadLog(content: Bytes, s: System, t: System, token: Token)
    requires token in s.downloads && DownloadLogOk(content, s, token)
    requires t.log == s.log && t.downloads == s.downloads
    ensures DownloadLogOk(content, t, token)
  {
  }

  /** One connection's own action, which sends nothing. */
  lemma QuietKeepsInv(content: Bytes, s: System, t: System, token: Token)
    requires Inv(content, s)
    requires Touches(s, t, token) && t.mailbox == s.mailbox && t.issued == s.issued
    requires TokensFit(t) && IssuedFits(t)
    requires token in t.downloads ==> DownloadLogOk(content, t, token)
    requires s.running ==> TokenOk(content, t, token)
    ensures Inv(content, t)
  {
    hide TokenOk, DownloadLogOk, Balanced, Consistent, ContentOk;
    if s.running {
      forall reply: Reply ensures Balanced(t, reply) {
        assert Balanced(s, reply);
        SameBalance(s, t, reply);
      }
    }
    TouchKeepsInv(content, s, t, token);
  }

  /** A token nobody has had. */
  lemma NewTokenIsClean(content: Bytes, s: System, call: nat)
    requires Inv(content, s)
    ensures s.nextToken !in s.uploads && s.nextToken !in s.downloads && s.nextToken !in s.sockets
    ensures Reply(s.nextToken, call) !in s.issued
    ensures s.running ==>
      && FromSender(s.mailbox, s.nextToken) == []
      && !s.session.IsUploader(s.nextToken)
      && Eventless(s, s.nextToken)
      && AnswersTo(s.log, Reply(s.nextToken, call)) == []
      && Parked(s.session, Reply(s.nextToken, call)) == 0
  {
    if s.running {
      assert TokenOk(content, s, s.nextToken);
      UnissuedIsUnused(s, Reply(s.nextToken, call));
    }
  }

  /** A new connection's first call. */
  lemma FirstCallIsIssued(s: System, s1: System, call: Command)
    requires TokensFit(s) && IssuedFits(s)
    requires s1.issued == s.issued && s1.nextToken == s.nextToken + 1
    requires forall t <- s1.uploads ::
      (t in s.uploads && s1.uploads[t] == s.uploads[t]) || (t == s.nextToken && s1.uploads[t].calls == 1)
    requires HasReply(call) && call.reply == Reply(s.nextToken, 0)
    ensures IssuedFits(Post(s1, call))
  {
  }

  /** A bystander's command. */
  lemma BystanderKeepsInv(content: Bytes, s: System, s1: System, command: Command)
    requires Inv(content, s)
    requires s1 == s.(nextToken := s.nextToken + 1, sockets := s1.sockets)
    requires s1.sockets == s.sockets
          || (s.nextToken in s1.sockets && s1.sockets == s.sockets[s.nextToken := s1.sockets[s.nextToken]])
    requires Tagged(command) && HasReply(command) && !Claims(command) && command.reply == Reply(s.nextToken, 0)
    ensures Inv(content, Post(s1, command))
  {
    hide IssuedFits, TokenOk, DownloadLogOk, Balanced, Consistent, ContentOk;
    var token := s.nextToken;
    NewTokenIsClean(content, s, 0);
    if s.running {
      FromSenderAppend(s.mailbox, command, token);
      assert TokenOk(content, Post(s1, command), token) by { BystanderTokenOk(content, s, s1, command); }
    }
    FirstCallIsIssued(s, s1, command);
    PostKeepsInv(content, s, s1, command, token);
  }

  lemma BystanderTokenOk(content: Bytes, s: System, s1: System, command: Command)
    requires s.running && s1.running && s1.session == s.session && s1.log == s.log && s1.mailbox == s.mailbox
    requires s1.uploads == s.uploads && s1.downloads == s.downloads && s1.nextToken > s.nextToken
    requires s.nextToken !in s.uploads && s.nextToken !in s.downloads
    requires !s.session.IsUploader(s.nextToken) && Eventless(s, s.nextToken)
    requires FromSender(s.mailbox + [command], s.nextToken) == [command] && !Claims(command)
    ensures TokenOk(content, Post(s1, command), s.nextToken)
  {
  }

  /** Answers to an upload's next call have not been sent yet. */
  lemma NextCallIsNew(content: Bytes, s: System, token: Token)
    requires Inv(content, s) && token in s.uploads
    ensures Reply(token, s.uploads[token].calls) !in s.issued
    ensures AnswersTo(s.log, Reply(token, s.uploads[token].calls)) == []
    ensures s.running ==> Parked(s.session, Reply(token, s.uploads[token].calls)) == 0
  {
    if s.running {
      UnissuedIsUnused(s, Reply(token, s.uploads[token].calls));
    }
  }

  // ----- Uploads -----

  /** A new upload request that stands where the content says. */
  lemma NewUploadKeeps(content: Bytes, s: System, position: Position, pieces: seq<Bytes>)
    requires Inv(content, s) && Plan(content, position, Chunked(pieces))
    ensures
      var h := UploadHandler(position, pieces, position, Chunked(pieces), Starting, 1, true, None);
      var s1 := s.(nextToken := s.nextToken + 1, uploads := s.uploads[s.nextToken := h]);
      Inv(content, Post(s1, LastCall(s.nextToken, h)))
  {
    hide Touches, IssuedFits, TokenOk, DownloadLogOk, Balanced, Consistent, ContentOk, Plan;
    var token := s.nextToken;
    NewTokenIsClean(content, s, 0);
    var h := UploadHandler(position, pieces, position, Chunked(pieces), Starting, 1, true, None);
    var s1 := s.(nextToken := token + 1, uploads := s.uploads[token := h]);
    var call := LastCall(token, h);
    if s.running {
      FromSenderAppend(s.mailbox, call, token);
      assert [] + [call] == [call];
      NewUploadOk(content, Post(s1, call), token, h);
    }
    UploadTouches(s, s1, token);
    FirstCallIsIssued(s, s1, call);
    PostKeepsInv(content, s, s1, call, token);
  }

  lemma PostUploadKeeps(content: Bytes, s: System, request: UploadRequest, pieces: seq<Bytes>)
    requires |content| < U64_LIMIT && Inv(content, s)
    ensures Inv(content, Apply(content, s, PostUpload(request, pieces)))
  {
    hide Inv, Post, Range.UploadPositionOf, Range.PrintContentRange;
    if Honest(content, request) && Concat(pieces) == request.body {
      var position: nat :| HonestFrom(content, request, position);
      HonestIsRead(content, request, position);
      ChunkedIsPlan(content, position, pieces);
      NewUploadKeeps(content, s, position, pieces);
    }
  }

  lemma NewUploadOk(content: Bytes, t: System, token: Token, h: UploadHandler)
    requires token in t.uploads && t.uploads[token] == h && token !in t.downloads
    requires h.calls == 1 && h.pc == Starting && h.alive && Plan(content, h.position, h.chunks)
    requires FromSender(t.mailbox, token) == [LastCall(token, h)]
    requires !t.session.IsUploader(token) && Eventless(t, token)
    requires AnswersTo(t.log, LastReply(token, h)) == [] && Parked(t.session, LastReply(token, h)) == 0
    ensures TokenOk(content, t, token)
  {
  }

  lemma UploadTokenIsOk(content: Bytes, t: System, token: Token, h: UploadHandler)
    requires token in t.uploads && t.uploads[token] == h && token !in t.downloads
    requires UploadTokenOk(content, t, token, h) && Eventless(t, token)
    ensures TokenOk(content, t, token)
  {
  }

  /** What is known of an upload while the session runs. */
  lemma UploadKnown(content: Bytes, s: System, token: Token)
    requires Inv(content, s) && s.running && token in s.uploads
    ensures token !in s.downloads && token !in s.sockets
    ensures UploadTokenOk(content, s, token, s.uploads[token]) && Eventless(s, token)
    ensures Plan(content, s.uploads[token].position, s.uploads[token].chunks)
  {
    assert TokenOk(content, s, token);
  }

  lemma EndUploadKeeps(content: Bytes, s: System, token: Token, response: Option<Response>)
    requires Inv(content, s) && LiveUpload(s, token)
    ensures Inv(content, EndUpload(s, token, s.uploads[token], response))
  {
    hide Inv, TokensFit, IssuedFits, Touches, TokenOk, DownloadLogOk, Balanced, Consistent, ContentOk;
    var h := s.uploads[token];
    var gone := h.(alive := false, response := response);
    var s1 := s.(uploads := s.uploads[token := gone]);
    var command := Command.Disconnected(token, Uploader);
    if s.running {
      UploadKnown(content, s, token);
      FromSenderAppend(s.mailbox, command, token);
      UploadTokenIsOk(content, Post(s1, command), token, gone);
    }
    InvBasics(content, s);
    UploadKeepsTokens(s, s1, token);
    SameIssuedUpload(s, Post(s1, command), token);
    UploadTouches(s, s1, token);
    PostKeepsInv(content, s, s1, command, token);
  }

  /** The next call takes the next number. */
  lemma CallIsIssued(s: System, s1: System, call: Command, token: Token)
    requires IssuedFits(s) && token in s.uploads && token < s.nextToken
    requires s1.issued == s.issued && s1.running == s.running && s1.nextToken == s.nextToken
    requires token in s1.uploads && s1.uploads == s.uploads[token := s1.uploads[token]]
    requires s1.uploads[token].calls == s.uploads[token].calls + 1
    requires HasReply(call) && call.reply == Reply(token, s.uploads[token].calls)
    ensures IssuedFits(Post(s1, call))
  {
  }

  lemma CallingOk(content: Bytes, t: System, token: Token, h: UploadHandler)
    requires token in t.uploads && t.uploads[token] == h && token !in t.downloads && Eventless(t, token)
    requires h.calls >= 1 && (h.pc == Flushing || h.pc == Sending) && h.alive && Plan(content, h.position, h.chunks)
    requires FromSender(t.mailbox, token) == [LastCall(token, h)]
    requires AnswersTo(t.log, LastReply(token, h)) == [] && Parked(t.session, LastReply(token, h)) == 0
    requires At(t.session, token, h.position) && (h.pc == Sending ==> NothingHeld(t.session, token))
    ensures TokenOk(content, t, token)
  {
  }

  /** A live upload that is not waiting, and stands where the session believes, may call. */
  lemma CallNextKeeps(content: Bytes, s: System, token: Token, pc: UploadPc)
    requires Inv(content, s) && LiveUpload(s, token)
    requires pc == Flushing || pc == Sending
    requires s.running ==>
      && FromSender(s.mailbox, token) == []
      && At(s.session, token, s.uploads[token].position)
      && (pc == Sending ==> NothingHeld(s.session, token))
    ensures Inv(content, CallNext(s, token, s.uploads[token], pc))
  {
    hide Inv, TokensFit, Touches, TokenOk, DownloadLogOk, Balanced, Consistent, ContentOk, UploadTokenOk;
    hide At, NothingHeld, IssuedFits, Plan;
    var h := s.uploads[token];
    var calling := h.(pc := pc, calls := h.calls + 1);
    var s1 := s.(uploads := s.uploads[token := calling]);
    var call := LastCall(token, calling);
    NextCallIsNew(content, s, token);
    if s.running {
      UploadKnown(content, s, token);
      FromSenderAppend(s.mailbox, call, token);
      assert [] + [call] == [call];
      CallingOk(content, Post(s1, call), token, calling);
    }
    InvBasics(content, s);
    UploadKeepsTokens(s, s1, token);
    UploadTouches(s, s1, token);
    CallIsIssued(s, s1, call, token);
    PostKeepsInv(content, s, s1, call, token);
  }

  lemma SameIssuedUpload(s: System, t: System, token: Token)
    requires IssuedFits(s) && t.issued == s.issued && t.nextToken == s.nextToken
    requires token in s.uploads && token in t.uploads && t.uploads == s.uploads[token := t.uploads[token]]
    requires t.uploads[token].calls == s.uploads[token].calls
    ensures IssuedFits(t)
  {
  }

  /** A live upload changes nothing but its own record. */
  lemma UploadMovesKeeps(content: Bytes, s: System, token: Token, h: UploadHandler)
    requires Inv(content, s) && LiveUpload(s, token) && h.calls == s.uploads[token].calls
    requires s.running ==> UploadTokenOk(content, s, token, h)
    ensures Inv(content, s.(uploads := s.uploads[token := h]))
  {
    hide Inv, TokensFit, IssuedFits, Touches, TokenOk, DownloadLogOk, Balanced, Consistent, ContentOk;
    var t := s.(uploads := s.uploads[token := h]);
    if s.running {
      UploadKnown(content, s, token);
      UploadTokenIsOk(content, t, token, h);
    }
    InvBasics(content, s);
    UploadKeepsTokens(s, t, token);
    SameIssuedUpload(s, t, token);
    UploadTouches(s, t, token);
    QuietKeepsInv(content, s, t, token);
  }

  /** What an answered upload can rely on. */
  lemma AnsweredFits(content: Bytes, s: System, token: Token)
    requires Inv(content, s) && LiveUpload(s, token) && s.running
    requires AnswersTo(s.log, LastReply(token, s.uploads[token])) != []
    ensures
      var h := s.uploads[token];
      var answers := AnswersTo(s.log, LastReply(token, h));
      && FromSender(s.mailbox, token) == []
      && Parked(s.session, LastReply(token, h)) == 0
      && answers == [answers[0]]
      && (answers[0].Accepted? ==> AcceptedFits(token, h, s.session))
  {
    UploadKnown(content, s, token);
    var answers := AnswersTo(s.log, LastReply(token, s.uploads[token]));
    assert answers == [answers[0]];
  }

  lemma UploadAnsweredKeeps(content: Bytes, s: System, token: Token)
    requires Inv(content, s)
    ensures Inv(content, Apply(content, s, UploadAnswered(token)))
  {
    hide TokenOk, DownloadLogOk, Balanced, Consistent, ContentOk;
    if LiveUpload(s, token) && s.uploads[token].pc != Reading {
      var h := s.uploads[token];
      var answer := AnswerFor(s, LastReply(token, h));
      if answer.Some? {
        if answer.value.Refused? {
          EndUploadKeeps(content, s, token, Some(UploadErrorResponse(answer.value.error)));
        } else {
          if s.running { AnsweredFits(content, s, token); }
          AcceptedKeeps(content, s, token);
        }
      }
    }
  }

  /** The record a request is left with when its flush, or a chunk with more behind it, has
      been accepted. */
  function AfterAccepted(h: UploadHandler): UploadHandler
    requires h.chunks != []
  {
    if h.pc == Flushing then h.(pc := Reading)
    else h.(position := h.position + h.chunks[0].Len(), chunks := h.chunks[1..], pc := Reading)
  }

  lemma AcceptedOk(content: Bytes, s: System, token: Token, h: UploadHandler)
    requires UploadTokenOk(content, s, token, h) && h.alive
    requires h.pc == Flushing || (h.pc == Sending && |h.chunks| > 1)
    requires FromSender(s.mailbox, token) == [] && AnswersTo(s.log, LastReply(token, h)) == [Accepted]
    ensures UploadTokenOk(content, s, token, AfterAccepted(h))
  {
    hide Project, FromSender;
  }

  lemma AcceptedKeeps(content: Bytes, s: System, token: Token)
    requires Inv(content, s) && LiveUpload(s, token) && s.uploads[token].pc != Reading
    requires s.running ==>
      && FromSender(s.mailbox, token) == []
      && AnswersTo(s.log, LastReply(token, s.uploads[token])) == [Accepted]
      && AcceptedFits(token, s.uploads[token], s.session)
    ensures Inv(content, OnUploadAnswer(s, token, s.uploads[token], Accepted))
  {
    hide Inv, CallNext, EndUpload, UploadTokenOk;
    var h := s.uploads[token];
    if s.running {
      UploadKnown(content, s, token);
      if h.pc == Flushing || (h.pc == Sending && |h.chunks| > 1) { AcceptedOk(content, s, token, h); }
    }
    match h.pc
    case Starting => CallNextKeeps(content, s, token, Flushing);
    case Flushing => UploadMovesKeeps(content, s, token, AfterAccepted(h));
    case Sending =>
      if |h.chunks| == 1 {
        EndUploadKeeps(content, s, token, Some(Ok));
      } else {
        UploadMovesKeeps(content, s, token, AfterAccepted(h));
      }
  }

  lemma UploadBodyReadyKeeps(content: Bytes, s: System, token: Token)
    requires Inv(content, s)
    ensures Inv(content, Apply(content, s, UploadBodyReady(token)))
  {
    hide TokenOk, DownloadLogOk, Balanced, Consistent, ContentOk;
    if LiveUpload(s, token) && s.uploads[token].pc == Reading {
      if s.running { UploadKnown(content, s, token); }
      CallNextKeeps(content, s, token, Sending);
    }
  }

  // ----- Downloads -----

  lemma GetContentKeeps(content: Bytes, s: System, range: Option<string>)
    requires Inv(content, s)
    ensures Inv(content, Apply(content, s, GetContent(range)))
  {
    hide Inv, Range.DownloadPositionOf;
    var token := s.nextToken;
    match Range.DownloadPositionOf(range)
    case Failure(_) =>
    case Success(Eof) => BystanderKeepsInv(content, s, s.(nextToken := token + 1), FinishDownload(Reply(token, 0)));
    case Success(At(position)) => NewDownloadKeeps(content, s, range, position);
  }

  /** A new download request that stands where its range says. */
  lemma NewDownloadKeeps(content: Bytes, s: System, range: Option<string>, position: Position)
    requires Inv(content, s) && Range.DownloadPositionOf(range) == Success(Range.At(position))
    ensures
      var d := DownloadHandler(range, position, Requested, 0, false);
      var s1 := s.(nextToken := s.nextToken + 1, downloads := s.downloads[s.nextToken := d]);
      Inv(content, Post(s1, StartDownload(s.nextToken, position, Reply(s.nextToken, 0))))
  {
    hide Touches, IssuedFits, TokenOk, DownloadLogOk, Balanced, Consistent, ContentOk, LogFits, Running;
    hide Range.DownloadPositionOf;
    var token := s.nextToken;
    NewTokenIsClean(content, s, 0);
    var d := DownloadHandler(range, position, Requested, 0, false);
    var s1 := s.(nextToken := token + 1, downloads := s.downloads[token := d]);
    var command := StartDownload(token, position, Reply(token, 0));
    if s.running {
      FromSenderAppend(s.mailbox, command, token);
      assert [] + [command] == [command];
      NewDownloadOk(content, Post(s1, command), token, d);
    }
    NewDownloadLogOk(content, s, s1, token, d);
    DownloadTouches(s, s1, token);
    FirstCallIsIssued(s, s1, command);
    PostKeepsInv(content, s, s1, command, token);
  }

  lemma NewDownloadOk(content: Bytes, t: System, token: Token, d: DownloadHandler)
    requires token in t.downloads && t.downloads[token] == d && token !in t.uploads
    requires Eventless(t, token) && !t.session.IsUploader(token)
    requires FromSender(t.mailbox, token) == [StartDownload(token, d.start, Reply(token, 0))]
    requires d.phase == Requested && d.taken == 0 && !d.completed
    ensures TokenOk(content, t, token)
  {
  }

  /** Nothing was ever sent to a token before it was issued. */
  lemma NewDownloadLogOk(content: Bytes, s: System, s1: System, token: Token, d: DownloadHandler)
    requires Inv(content, s) && token == s.nextToken
    requires s1 == s.(nextToken := token + 1, downloads := s.downloads[token := d])
    requires d.taken == 0 && !d.completed && Range.DownloadPositionOf(d.range) == Success(Range.At(d.start))
    ensures DownloadLogOk(content, s1, token)
  {
  }

  /** What is known of a download while the session runs. */
  lemma DownloadKnown(content: Bytes, s: System, token: Token)
    requires Inv(content, s) && token in s.downloads
    ensures token !in s.uploads && token !in s.sockets && DownloadLogOk(content, s, token)
    ensures s.running ==>
      DI.DownloadOk(content, token, s.downloads[token], FromSender(s.mailbox, token), s.session, EventsTo(s.log, token))
  {
    if s.running { assert TokenOk(content, s, token); }
  }

  lemma DownloadTokenIsOk(content: Bytes, t: System, token: Token, d: DownloadHandler)
    requires token in t.downloads && t.downloads[token] == d && token !in t.uploads
    requires DI.DownloadOk(content, token, d, FromSender(t.mailbox, token), t.session, EventsTo(t.log, token))
    ensures TokenOk(content, t, token)
  {
  }

  /** A download changes nothing but its own record. */
  lemma DownloadMovesKeeps(content: Bytes, s: System, token: Token, d: DownloadHandler)
    requires Inv(content, s) && token in s.downloads
    requires d.range == s.downloads[token].range && d.start == s.downloads[token].start
    requires d.taken <= |EventsTo(s.log, token)|
    requires d.completed ==> 0 < d.taken && EventsTo(s.log, token)[d.taken - 1].Final?
    requires s.running ==>
      DI.DownloadOk(content, token, d, FromSender(s.mailbox, token), s.session, EventsTo(s.log, token))
    ensures Inv(content, s.(downloads := s.downloads[token := d]))
  {
    hide Touches, TokenOk, Balanced, Consistent, ContentOk, IssuedFits, DI.DownloadOk, DownloadLogOk;
    var t := s.(downloads := s.downloads[token := d]);
    DownloadKnown(content, s, token);
    if s.running { DownloadTokenIsOk(content, t, token, d); }
    SameIssued(s, t);
    MovedLogOk(content, s, t, token);
    DownloadTouches(s, t, token);
    QuietKeepsInv(content, s, t, token);
  }

  lemma MovedLogOk(content: Bytes, s: System, t: System, token: Token)
    requires token in s.downloads && DownloadLogOk(content, s, token) && token in t.downloads && t.log == s.log
    requires
      var was, d := s.downloads[token], t.downloads[token];
      && d.range == was.range && d.start == was.start
      && d.taken <= |EventsTo(s.log, token)|
      && (d.completed ==> 0 < d.taken && EventsTo(s.log, token)[d.taken - 1].Final?)
    ensures DownloadLogOk(content, t, token)
  {
  }

  lemma SameIssued(s: System, t: System)
    requires IssuedFits(s) && t.issued == s.issued && t.nextToken >= s.nextToken && t.uploads == s.uploads
    ensures IssuedFits(t)
  {
  }

  lemma {:induction false} QueuedIsInMailbox(mailbox: seq<Command>, token: Token, reply: Reply)
    requires FromSender(mailbox, token) != [] && Carries(FromSender(mailbox, token)[0], reply) == 1
    ensures InMailbox(mailbox, reply) >= 1
  {
    if Sender(mailbox[0]) != Some(token) {
      assert FromSender(mailbox, token) == FromSender(mailbox[1..], token);
      QueuedIsInMailbox(mailbox[1..], token, reply);
    } else {
      assert FromSender(mailbox, token)[0] == mailbox[0];
    }
  }

  /** A download that has been answered is no longer in the mailbox. */
  lemma AnsweredIsStarted(s: System, token: Token, d: DownloadHandler)
    requires Balanced(s, Reply(token, 0)) && DI.QueueFits(token, d, FromSender(s.mailbox, token))
    requires Project(s.log, UseOf(Reply(token, 0))) != []
    ensures !DI.Unstarted(FromSender(s.mailbox, token))
  {
    if DI.Unstarted(FromSender(s.mailbox, token)) {
      QueuedIsInMailbox(s.mailbox, token, Reply(token, 0));
    }
  }

  lemma StreamOk(content: Bytes, token: Token, d: DownloadHandler, queue: seq<Command>, s: Session,
                 events: seq<DownloadEvent>)
    requires DI.DownloadOk(content, token, d, queue, s, events) && !DI.Unstarted(queue) && d.phase.Requested?
    ensures DI.DownloadOk(content, token, d.(phase := Streaming), queue, s, events)
  {
  }

  lemma DownloadAnsweredKeeps(content: Bytes, s: System, token: Token)
    requires Inv(content, s)
    ensures Inv(content, Apply(content, s, DownloadAnswered(token)))
  {
    hide DI.DownloadOk, DownloadLogOk, TokenOk, Balanced, Consistent, ContentOk, IssuedFits;
    if token in s.downloads && s.downloads[token].phase.Requested? {
      var d := s.downloads[token];
      DownloadKnown(content, s, token);
      if Project(s.log, UseOf(Reply(token, 0))) != [] {
        if s.running {
          assert Balanced(s, Reply(token, 0));
          assert DI.QueueFits(token, d, FromSender(s.mailbox, token));
          AnsweredIsStarted(s, token, d);
          StreamOk(content, token, d, FromSender(s.mailbox, token), s.session, EventsTo(s.log, token));
        }
        DownloadReadSoFar(content, s, token);
        DownloadMovesKeeps(content, s, token, d.(phase := Streaming));
      } else if !s.running {
        DownloadReadSoFar(content, s, token);
        DownloadMovesKeeps(content, s, token, d.(phase := Dropped));
      }
    }
  }

  /** A stream that ends says so. */
  lemma GoodbyeOk(content: Bytes, token: Token, d: DownloadHandler, queue: seq<Command>, s: Session,
                  events: seq<DownloadEvent>)
    requires DI.DownloadOk(content, token, d, queue, s, events) && d.phase.Streaming?
    ensures DI.DownloadOk(content, token, d.(phase := Closed),
                          queue + [Command.Disconnected(token, Downloader(d.completed))], s, events)
  {
    assert queue == [];
  }

  /** A request dropped before it was answered says nothing. */
  lemma SilentEndOk(content: Bytes, token: Token, d: DownloadHandler, queue: seq<Command>, s: Session,
                    events: seq<DownloadEvent>)
    requires DI.DownloadOk(content, token, d, queue, s, events) && d.phase.Requested?
    ensures DI.DownloadOk(content, token, d.(phase := Dropped), queue, s, events)
  {
  }

  lemma DownloadReadSoFar(content: Bytes, s: System, token: Token)
    requires token in s.downloads && DownloadLogOk(content, s, token)
    ensures
      var d := s.downloads[token];
      && d.taken <= |EventsTo(s.log, token)|
      && (d.completed ==> 0 < d.taken && EventsTo(s.log, token)[d.taken - 1].Final?)
  {
  }

  lemma EndDownloadKeeps(content: Bytes, s: System, token: Token)
    requires Inv(content, s) && token in s.downloads && !s.downloads[token].phase.Over()
    ensures Inv(content, EndDownload(s, token, s.downloads[token]))
  {
    hide Touches, TokenOk, Balanced, Consistent, ContentOk, IssuedFits, DI.DownloadOk, DownloadLogOk;
    var d := s.downloads[token];
    var closed := d.(phase := Closed);
    DownloadKnown(content, s, token);
    DownloadReadSoFar(content, s, token);
    if d.phase.Streaming? {
      var s1 := s.(downloads := s.downloads[token := closed]);
      var command := Command.Disconnected(token, Downloader(d.completed));
      if s.running {
        FromSenderAppend(s.mailbox, command, token);
        GoodbyeOk(content, token, d, FromSender(s.mailbox, token), s.session, EventsTo(s.log, token));
        DownloadTokenIsOk(content, Post(s1, command), token, closed);
      }
      MovedLogOk(content, s, s1, token);
      DownloadTouches(s, s1, token);
      SameIssued(s, Post(s1, command));
      PostKeepsInv(content, s, s1, command, token);
    } else {
      if s.running {
        SilentEndOk(content, token, d, FromSender(s.mailbox, token), s.session, EventsTo(s.log, token));
      }
      DownloadMovesKeeps(content, s, token, d.(phase := Dropped));
    }
  }

  /** Reading the next event moves the reader past it. */
  lemma ReadOk(content: Bytes, token: Token, d: DownloadHandler, queue: seq<Command>, s: Session,
               events: seq<DownloadEvent>, completed: bool)
    requires DI.DownloadOk(content, token, d, queue, s, events) && d.phase.Streaming?
    requires d.taken < |events| && (completed ==> events[d.taken].Final?)
    ensures DI.DownloadOk(content, token, d.(taken := d.taken + 1, completed := completed), queue, s, events)
  {
  }

  lemma DownloadPolledKeeps(content: Bytes, s: System, token: Token)
    requires Inv(content, s)
    ensures Inv(content, Apply(content, s, DownloadPolled(token)))
  {
    hide TokenOk, Balanced, Consistent, ContentOk, IssuedFits, DI.DownloadOk, DownloadLogOk;
    if token in s.downloads && s.downloads[token].phase.Streaming? && !s.downloads[token].completed
       && s.downloads[token].taken < |EventsTo(s.log, token)|
    {
      var d, events := s.downloads[token], EventsTo(s.log, token);
      DownloadKnown(content, s, token);
      if events[d.taken].ConnectionReplaced? {
        EndDownloadKeeps(content, s, token);
      } else {
        var completed := events[d.taken].Final?;
        if s.running {
          ReadOk(content, token, d, FromSender(s.mailbox, token), s.session, events, completed);
        }
        DownloadMovesKeeps(content, s, token, d.(taken := d.taken + 1, completed := completed));
      }
    }
  }

  // ----- Websockets -----

  lemma OpenSocketKeeps(content: Bytes, s: System, direction: Direction)
    requires Inv(content, s)
    ensures Inv(content, Apply(content, s, OpenSocket(direction)))
  {
    hide TokenOk, Balanced, Consistent, ContentOk, IssuedFits, DownloadLogOk;
    BystanderKeepsInv(content, s,
                      s.(nextToken := s.nextToken + 1, sockets := s.sockets[s.nextToken := direction]),
                      StartWebsocket(direction, s.nextToken, Reply(s.nextToken, 0)));
  }

  /** A frame, or a websocket's goodbye. */
  lemma SocketKeeps(content: Bytes, s: System, s1: System, command: Command, token: Token)
    requires Inv(content, s) && token in s.sockets
    requires s1 == s.(sockets := s1.sockets) && s1.sockets.Keys <= s.sockets.Keys
    requires command.WebsocketData? || (command.Disconnected? && command.token == token && command.peer.Websocket?)
    ensures Inv(content, Post(s1, command))
  {
    hide TokenOk, Balanced, Consistent, ContentOk, IssuedFits, DownloadLogOk;
    if s.running {
      FromSenderAppend(s.mailbox, command, token);
      SocketTokenOk(content, s, Post(s1, command), command, token);
    }
    SameIssued(s, Post(s1, command));
    PostKeepsInv(content, s, s1, command, token);
  }

  lemma SocketTokenOk(content: Bytes, s: System, t: System, command: Command, token: Token)
    requires s.running && Running(content, s) && TokensFit(s) && token in s.sockets
    requires t.session == s.session && t.log == s.log && t.uploads == s.uploads && t.downloads == s.downloads
    requires t.nextToken == s.nextToken && !Claims(command)
    requires FromSender(t.mailbox, token)
          == FromSender(s.mailbox, token) + if Sender(command) == Some(token) then [command] else []
    ensures TokenOk(content, t, token)
  {
    assert TokenOk(content, s, token);
  }
}
