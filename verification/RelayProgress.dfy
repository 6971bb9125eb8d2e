// Nothing that has happened in a session can wedge it: from every state the relay can reach,
// once the mailbox is served, a download that is connected is completed by the next upload.

module RelayProgress {
  import opened Base
  import opened RelaySession
  import opened Effects
  import opened SessionSteps
  import opened SessionInvariant
  import opened Api
  import opened RelaySystem
  import DI = DownloadInvariant
  import opened RelayInvariant
  import opened RelayServe
  import opened RelayActions
  import opened RelayTheorems
  import opened RelayUploads
  import Range

  /** A client uploads everything from `position` on, its body arriving in these pieces. */
  function Posting(content: Bytes, position: Position, pieces: seq<Bytes>): Action
    requires 1 <= |content| && position <= |content|
  {
    PostUpload(UploadRequest(Some(Range.PrintContentRange(position, |content|)), content[position..]), pieces)
  }

  /** A chunk is read, sent, served and answered, this many times. */
  function Rounds(n: nat, token: Token): seq<Action> {
    if n == 0 then [] else [UploadBodyReady(token), Serve, UploadAnswered(token)] + Rounds(n - 1, token)
  }

  /** Such an upload from its beginning to its end, with nobody getting in its way. */
  function WholeUpload(content: Bytes, position: Position, pieces: seq<Bytes>, token: Token): seq<Action>
    requires 1 <= |content| && position <= |content|
  {
    [Posting(content, position, pieces)] + ([Serve, UploadAnswered(token)] + ([Serve, UploadAnswered(token)]
    + Rounds(|Chunked(pieces)|, token)))
  }

  /** The session is idle, with this downloader connected at this position. */
  ghost predicate Idle(content: Bytes, s: System, download: Token, position: Position) {
    && Inv(content, s) && s.running && s.mailbox == []
    && s.session.downloader == Connected(download, position) && position <= |content|
  }

  /** The upload's call is all there is in the mailbox. */
  ghost predicate Calling(content: Bytes, s: System, download: Token, token: Token, h: UploadHandler) {
    && Inv(content, s) && s.running && LiveUpload(s, token) && s.uploads[token] == h
    && h.pc != Reading && s.mailbox == [LastCall(token, h)]
    && s.session.downloader == Connected(download, h.position)
    && (h.pc != Starting ==> s.session.uploader == Some(Registration(token, h.position)) && s.session.pending.Nothing?)
  }

  /** The upload's call has been accepted, and the session is at `position`. */
  ghost predicate Answered(content: Bytes, s: System, download: Token, token: Token, h: UploadHandler,
                           position: Position)
  {
    && Inv(content, s) && s.running && LiveUpload(s, token) && s.uploads[token] == h && s.mailbox == []
    && (h.pc != Reading ==> AnswersTo(s.log, LastReply(token, h)) == [Accepted])
    && s.session.downloader == Connected(download, position)
    && s.session.uploader == Some(Registration(token, position)) && s.session.pending.Nothing?
  }

  /** The upload's record until it gets to its body. */
  function Fresh(position: Position, pieces: seq<Bytes>, pc: UploadPc, calls: nat): UploadHandler {
    UploadHandler(position, pieces, position, Chunked(pieces), pc, calls, true, None)
  }

  lemma PostingIsTaken(content: Bytes, s: System, position: Position, pieces: seq<Bytes>)
    requires 1 <= |content| < U64_LIMIT && position <= |content| && Concat(pieces) == content[position..]
    ensures
      var token, h := s.nextToken, Fresh(position, pieces, Starting, 1);
      Apply(content, s, Posting(content, position, pieces))
      == Post(s.(nextToken := token + 1, uploads := s.uploads[token := h]), LastCall(token, h))
  {
    hide Range.UploadPositionOf, Range.PrintContentRange, LastCall, Concat;
    assert HonestFrom(content, Posting(content, position, pieces).request, position);
    HonestIsRead(content, Posting(content, position, pieces).request, position);
  }

  lemma PostingCalls(content: Bytes, s: System, download: Token, position: Position, pieces: seq<Bytes>)
    requires 1 <= |content| < U64_LIMIT && Idle(content, s, download, position)
    requires Concat(pieces) == content[position..]
    ensures
      var t := Apply(content, s, Posting(content, position, pieces));
      Calling(content, t, download, s.nextToken, Fresh(position, pieces, Starting, 1)) && t.downloads == s.downloads
  {
    hide Inv, Apply, Posting, Concat;
    ApplyKeepsInv(content, s, Posting(content, position, pieces));
    PostingIsTaken(content, s, position, pieces);
  }

  /** With the downloader where the upload is, its call is accepted at once. */
  lemma ServingCalls(content: Bytes, s: System, download: Token, token: Token, h: UploadHandler)
    requires |content| < U64_LIMIT && Calling(content, s, download, token, h)
    ensures
      var t := Apply(content, s, Serve);
      var position := if h.pc == Sending then h.position + h.chunks[0].Len() else h.position;
      Answered(content, t, download, token, h, position) && t.downloads == s.downloads
  {
    hide Inv, Apply, Step, Answers, AnswersTo;
    ApplyKeepsInv(content, s, Serve);
    ApplyServe(content, s);
    CallIsUnanswered(content, s, token, h);
    ServeReads(s, token, LastReply(token, h));
    CallIsAccepted(s.session, download, token, h);
    assert [] + [Accepted] == [Accepted];
  }

  lemma CallIsUnanswered(content: Bytes, s: System, token: Token, h: UploadHandler)
    requires Inv(content, s) && s.running && LiveUpload(s, token) && s.uploads[token] == h
    requires h.pc != Reading && s.mailbox == [LastCall(token, h)]
    ensures Consistent(s.session) && AnswersTo(s.log, LastReply(token, h)) == []
  {
    hide AnswersTo, TokensFit, IssuedFits, LogFits, DownloadLogOk, Consistent;
    UploadKnown(content, s, token);
    assert FromSender(s.mailbox, token) == s.mailbox by { assert s.mailbox[1..] == []; }
  }

  lemma CallIsAccepted(s: Session, download: Token, token: Token, h: UploadHandler)
    requires Consistent(s) && h.calls >= 1 && h.chunks != [] && h.pc != Reading
    requires s.downloader == Connected(download, h.position)
    requires h.pc != Starting ==> s.uploader == Some(Registration(token, h.position)) && s.pending.Nothing?
    ensures
      var call, after := LastCall(token, h), Step(s, LastCall(token, h)).state;
      var position := if h.pc == Sending then h.position + h.chunks[0].Len() else h.position;
      && !Step(s, call).stop && Answers(s, call, LastReply(token, h)) == [Accepted]
      && after.downloader == Connected(download, position)
      && after.uploader == Some(Registration(token, position)) && after.pending.Nothing?
  {
    if h.pc == Starting { StartIsAccepted(s, download, token, h.position, LastReply(token, h)); }
  }

  lemma StartIsAccepted(s: Session, download: Token, token: Token, position: Position, reply: Reply)
    requires Consistent(s) && s.downloader == Connected(download, position)
    ensures
      var call := StartUpload(token, position, reply);
      && Step(s, call).state.downloader == s.downloader && Answers(s, call, reply) == [Accepted]
      && Step(s, call).state.uploader == Some(Registration(token, position)) && Step(s, call).state.pending.Nothing?
  {
    assert !s.pending.Data?;
  }

  /** An accepted upload moves on. */
  lemma AcceptedMoves(content: Bytes, s: System, token: Token)
    requires LiveUpload(s, token) && s.uploads[token].pc != Reading
    requires AnswersTo(s.log, LastReply(token, s.uploads[token])) == [Accepted]
    ensures Apply(content, s, UploadAnswered(token)) == OnUploadAnswer(s, token, s.uploads[token], Accepted)
  {
    hide AnswersTo, OnUploadAnswer, Range.UploadPositionOf, Range.DownloadPositionOf;
  }

  lemma AnsweredStartFlushes(content: Bytes, s: System, download: Token, token: Token, h: UploadHandler)
    requires |content| < U64_LIMIT && Answered(content, s, download, token, h, h.position) && h.pc == Starting
    ensures
      var t := Apply(content, s, UploadAnswered(token));
      Calling(content, t, download, token, h.(pc := Flushing, calls := h.calls + 1)) && t.downloads == s.downloads
  {
    hide Inv, Apply, AnswersTo, EndUpload;
    ApplyKeepsInv(content, s, UploadAnswered(token));
    AcceptedMoves(content, s, token);
  }

  lemma AnsweredFlushReads(content: Bytes, s: System, download: Token, token: Token, h: UploadHandler)
    requires |content| < U64_LIMIT && Answered(content, s, download, token, h, h.position) && h.pc == Flushing
    ensures
      var t := Apply(content, s, UploadAnswered(token));
      Answered(content, t, download, token, h.(pc := Reading), h.position) && t.downloads == s.downloads
  {
    hide Inv, Apply, AnswersTo, EndUpload;
    ApplyKeepsInv(content, s, UploadAnswered(token));
    AcceptedMoves(content, s, token);
  }

  lemma ReadBodySends(content: Bytes, s: System, download: Token, token: Token, h: UploadHandler)
    requires |content| < U64_LIMIT && Answered(content, s, download, token, h, h.position) && h.pc == Reading
    ensures
      var t := Apply(content, s, UploadBodyReady(token));
      Calling(content, t, download, token, h.(pc := Sending, calls := h.calls + 1)) && t.downloads == s.downloads
  {
    hide Inv, AnswersTo, OnUploadAnswer, EndUpload, Honest, Range.UploadPositionOf, Range.DownloadPositionOf;
    ApplyKeepsInv(content, s, UploadBodyReady(token));
  }

  lemma AnsweredDataEnds(content: Bytes, s: System, download: Token, token: Token, h: UploadHandler, position: Position)
    requires |content| < U64_LIMIT && Answered(content, s, download, token, h, position)
    requires h.pc == Sending && |h.chunks| == 1
    ensures
      var t := Apply(content, s, UploadAnswered(token));
      && Inv(content, t) && t.running && token in t.uploads && t.uploads[token].response == Some(Ok)
      && t.session.downloader == Connected(download, position) && t.downloads == s.downloads
      && t.log == s.log && t.mailbox == [Command.Disconnected(token, Uploader)]
  {
    hide Inv, Apply, AnswersTo;
    ApplyKeepsInv(content, s, UploadAnswered(token));
    AcceptedMoves(content, s, token);
  }

  /** What is left of an upload that has had a chunk accepted with more behind it. */
  function NextChunk(h: UploadHandler): UploadHandler
    requires |h.chunks| > 1
  {
    h.(position := h.position + h.chunks[0].Len(), chunks := h.chunks[1..], pc := Reading)
  }

  lemma AnsweredDataReads(content: Bytes, s: System, download: Token, token: Token, h: UploadHandler)
    requires |content| < U64_LIMIT && h.pc == Sending && |h.chunks| > 1
    requires Answered(content, s, download, token, h, h.position + h.chunks[0].Len())
    ensures
      var t := Apply(content, s, UploadAnswered(token));
      Answered(content, t, download, token, NextChunk(h), NextChunk(h).position) && t.downloads == s.downloads
  {
    hide Inv, Apply, AnswersTo, EndUpload;
    ApplyKeepsInv(content, s, UploadAnswered(token));
    AcceptedMoves(content, s, token);
  }

  /** The request ended well, with the downloader at the end of the content and told so. */
  ghost predicate EndedWell(content: Bytes, s: System, download: Token, token: Token) {
    && Inv(content, s) && s.running && token in s.uploads && s.uploads[token].response == Some(Ok)
    && s.session.downloader == Connected(download, |content|) && HasFinal(EventsTo(s.log, download))
    && s.mailbox == [Command.Disconnected(token, Uploader)]
  }

  /** Serving an upload's last chunk tells the downloader that it is the last. */
  lemma ServingLastIsHeard(content: Bytes, s: System, download: Token, token: Token, h: UploadHandler)
    requires Calling(content, s, download, token, h) && h.pc == Sending && h.chunks[0].Final?
    ensures HasFinal(EventsTo(Apply(content, s, Serve).log, download))
  {
    hide Inv, Apply, Step, EventsTo;
    ApplyServe(content, s);
    ServeReads(s, download, Reply(0, 0));
    var before, event := EventsTo(s.log, download), h.chunks[0].IntoEvent();
    assert Delivers(s.session, s.mailbox[0], download) == [event];
    assert (before + [event])[|before|].Final?;
  }

  lemma PlanNext(content: Bytes, position: Position, chunks: seq<Chunk>)
    requires Plan(content, position, chunks)
    ensures chunks != []
    ensures |chunks| == 1 ==> position + chunks[0].Len() == |content| && chunks[0].Final?
    ensures |chunks| > 1 ==> Plan(content, position + chunks[0].Len(), chunks[1..])
  {
  }

  /** One round takes an upload to its next chunk, or to its end. */
  lemma RoundMoves(content: Bytes, s: System, download: Token, token: Token, h: UploadHandler)
    requires |content| < U64_LIMIT && h.pc == Reading && Plan(content, h.position, h.chunks)
    requires Answered(content, s, download, token, h, h.position)
    ensures
      var t := Apply(content, Apply(content, Apply(content, s, UploadBodyReady(token)), Serve), UploadAnswered(token));
      && t.downloads == s.downloads
      && if |h.chunks| == 1 then EndedWell(content, t, download, token)
         else
           var next := NextChunk(h).(calls := h.calls + 1);
           Answered(content, t, download, token, next, next.position) && Plan(content, next.position, next.chunks)
  {
    hide Inv, Apply, Calling, Answered, Plan, EventsTo, HasFinal;
    var sends := h.(pc := Sending, calls := h.calls + 1);
    PlanNext(content, h.position, h.chunks);
    ReadBodySends(content, s, download, token, h);
    var sending := Apply(content, s, UploadBodyReady(token));
    ServingCalls(content, sending, download, token, sends);
    var served := Apply(content, sending, Serve);
    if |h.chunks| == 1 {
      ServingLastIsHeard(content, sending, download, token, sends);
      AnsweredDataEnds(content, served, download, token, sends, |content|);
    } else {
      AnsweredDataReads(content, served, download, token, sends);
    }
  }

  /** Every chunk of the body, in as many rounds. */
  lemma {:induction false} RoundsEnd(content: Bytes, s: System, download: Token, token: Token, h: UploadHandler)
    requires |content| < U64_LIMIT && h.pc == Reading && Plan(content, h.position, h.chunks)
    requires Answered(content, s, download, token, h, h.position)
    ensures
      var t := Exec(content, s, Rounds(|h.chunks|, token));
      EndedWell(content, t, download, token) && t.downloads == s.downloads
    decreases |h.chunks|
  {
    hide Inv, Apply, Exec, Answered, EndedWell;
    var n := |h.chunks|;
    RoundMoves(content, s, download, token, h);
    var next :=
      Apply(content, Apply(content, Apply(content, s, UploadBodyReady(token)), Serve), UploadAnswered(token));
    ExecThree(content, s, UploadBodyReady(token), Serve, UploadAnswered(token), Rounds(n - 1, token));
    if n == 1 {
      ExecNone(content, next);
    } else {
      RoundsEnd(content, next, download, token, NextChunk(h).(calls := h.calls + 1));
    }
  }

  /** A connected downloader at the end of the content has all of it. */
  lemma AtEndHasAll(content: Bytes, s: System, download: Token)
    requires Inv(content, s) && s.running && download in s.downloads
    requires s.session.downloader == Connected(download, |content|) && s.downloads[download].start <= |content|
    ensures Carried(EventsTo(s.log, download)) == content[s.downloads[download].start..]
  {
    hide Inv, DI.DownloadOk, Carried, EventsTo;
    DownloadKnown(content, s, download);
    ConnectedCarries(content, download, s.downloads[download], FromSender(s.mailbox, download), s.session,
                     EventsTo(s.log, download));
  }

  /** A connected downloader has been sent the content up to its position. */
  lemma ConnectedCarries(content: Bytes, token: Token, d: DownloadHandler, queue: seq<Command>, s: Session,
                         events: seq<DownloadEvent>)
    requires DI.DownloadOk(content, token, d, queue, s, events) && s.IsDownloader(token) && d.start <= |content|
    ensures s.downloader.position <= |content|
    ensures d.start <= s.downloader.position && Carried(events) == content[d.start..s.downloader.position]
  {
    hide DI.Follows, Carried, FromSender;
    DI.FollowsCarries(content, d.start, events);
  }

  /** The upload starts, is flushed, and gets to its body. */
  lemma WholeUploadReads(content: Bytes, s: System, download: Token, position: Position, pieces: seq<Bytes>)
    requires 1 <= |content| < U64_LIMIT && Idle(content, s, download, position)
    requires Concat(pieces) == content[position..]
    ensures
      var start := Apply(content, s, Posting(content, position, pieces));
      var flushing := Apply(content, Apply(content, start, Serve), UploadAnswered(s.nextToken));
      var reading := Apply(content, Apply(content, flushing, Serve), UploadAnswered(s.nextToken));
      Answered(content, reading, download, s.nextToken, Fresh(position, pieces, Reading, 2), position)
      && reading.downloads == s.downloads
  {
    hide Inv, Apply, Posting, Calling, Answered, Concat, Chunked;
    var token := s.nextToken;
    PostingCalls(content, s, download, position, pieces);
    var start := Apply(content, s, Posting(content, position, pieces));
    ServingCalls(content, start, download, token, Fresh(position, pieces, Starting, 1));
    var started := Apply(content, start, Serve);
    AnsweredStartFlushes(content, started, download, token, Fresh(position, pieces, Starting, 1));
    var flushing := Apply(content, started, UploadAnswered(token));
    ServingCalls(content, flushing, download, token, Fresh(position, pieces, Flushing, 2));
    var flushed := Apply(content, flushing, Serve);
    AnsweredFlushReads(content, flushed, download, token, Fresh(position, pieces, Flushing, 2));
  }

  /** An idle session with a downloader connected: the next upload, its body arriving in any
      pieces, is never refused and completes that download. */
  lemma WholeUploadCompletes(content: Bytes, s: System, download: Token, position: Position, pieces: seq<Bytes>)
    requires 1 <= |content| < U64_LIMIT && Idle(content, s, download, position)
    requires download in s.downloads && s.downloads[download].start <= |content|
    requires Concat(pieces) == content[position..]
    ensures
      var t := Exec(content, s, WholeUpload(content, position, pieces, s.nextToken));
      && s.nextToken in t.uploads && t.uploads[s.nextToken].response == Some(Ok)
      && t.downloads == s.downloads && EndedWell(content, t, download, s.nextToken)
      && Carried(EventsTo(t.log, download)) == content[s.downloads[download].start..]
  {
    hide Inv, Apply, Exec, Posting, Calling, Answered, Concat, Chunked, Rounds, Carried, EventsTo, Plan;
    var token := s.nextToken;
    var rounds := Rounds(|Chunked(pieces)|, token);
    WholeUploadReads(content, s, download, position, pieces);
    ChunkedIsPlan(content, position, pieces);
    var start := Apply(content, s, Posting(content, position, pieces));
    var flushing := Apply(content, Apply(content, start, Serve), UploadAnswered(token));
    var reading := Apply(content, Apply(content, flushing, Serve), UploadAnswered(token));
    RoundsEnd(content, reading, download, token, Fresh(position, pieces, Reading, 2));
    ExecTwo(content, flushing, Serve, UploadAnswered(token), rounds);
    ExecTwo(content, start, Serve, UploadAnswered(token), [Serve, UploadAnswered(token)] + rounds);
    ExecCons(content, s, Posting(content, position, pieces),
             [Serve, UploadAnswered(token)] + ([Serve, UploadAnswered(token)] + rounds));
    AtEndHasAll(content, Exec(content, s, WholeUpload(content, position, pieces, token)), download);
  }

  lemma ExecNone(content: Bytes, s: System)
    ensures Exec(content, s, []) == s
  {
  }

  lemma ExecCons(content: Bytes, s: System, a: Action, rest: seq<Action>)
    ensures Exec(content, s, [a] + rest) == Exec(content, Apply(content, s, a), rest)
  {
    hide Apply;
    assert ([a] + rest)[1..] == rest;
  }

  lemma ExecTwo(content: Bytes, s: System, a: Action, b: Action, rest: seq<Action>)
    ensures Exec(content, s, [a, b] + rest) == Exec(content, Apply(content, Apply(content, s, a), b), rest)
  {
    hide Apply, Exec;
    assert [a, b] + rest == [a] + ([b] + rest);
    ExecCons(content, s, a, [b] + rest);
    ExecCons(content, Apply(content, s, a), b, rest);
  }

  lemma ExecThree(content: Bytes, s: System, a: Action, b: Action, c: Action, rest: seq<Action>)
    ensures Exec(content, s, [a, b, c] + rest)
         == Exec(content, Apply(content, Apply(content, Apply(content, s, a), b), c), rest)
  {
    hide Apply, Exec;
    assert [a, b, c] + rest == [a, b] + ([c] + rest);
    ExecTwo(content, s, a, b, [c] + rest);
    ExecCons(content, Apply(content, Apply(content, s, a), b), c, rest);
  }

  // ----- From any reachable state -----

  function Serves(n: nat): seq<Action> {
    if n == 0 then [] else [Serve] + Serves(n - 1)
  }

  lemma ServeShortens(content: Bytes, s: System)
    ensures
      var t := Apply(content, s, Serve);
      t.downloads == s.downloads && t.nextToken == s.nextToken
      && |t.mailbox| <= if s.running && s.mailbox != [] then |s.mailbox| - 1 else |s.mailbox|
  {
    hide Step;
  }

  /** Serving long enough empties the mailbox of a session that goes on. */
  lemma {:induction false} ServesEmpty(content: Bytes, s: System, n: nat)
    requires |content| < U64_LIMIT && Inv(content, s) && (s.running ==> |s.mailbox| <= n)
    ensures
      var t := Exec(content, s, Serves(n));
      Inv(content, t) && (t.running ==> t.mailbox == []) && t.nextToken == s.nextToken && t.downloads == s.downloads
    decreases n
  {
    if n > 0 {
      var next := Apply(content, s, Serve);
      ApplyKeepsInv(content, s, Serve);
      ServeShortens(content, s);
      ServeStaysStopped(content, s);
      hide Inv, Apply;
      assert Serves(n)[1..] == Serves(n - 1);
      ServesEmpty(content, next, n - 1);
    }
  }

  lemma ServeStaysStopped(content: Bytes, s: System)
    ensures Apply(content, s, Serve).running ==> s.running
  {
    hide Step;
  }

  /** A connected downloader is one of the downloads, and within the content if it asked for
      a place within it. */
  lemma ConnectedIsIdle(content: Bytes, s: System)
    requires Inv(content, s) && s.running && s.mailbox == [] && s.session.downloader.Connected?
    ensures
      var token := s.session.downloader.token;
      && token in s.downloads
      && (s.downloads[token].start <= |content| ==> Idle(content, s, token, s.session.downloader.position))
  {
    hide DI.DownloadOk, Carried, EventsTo;
    var token := s.session.downloader.token;
    assert TokenOk(content, s, token);
    if s.downloads[token].start <= |content| {
      ConnectedCarries(content, token, s.downloads[token], FromSender(s.mailbox, token), s.session,
                       EventsTo(s.log, token));
    }
  }

  /** A download that is connected, whatever happened before, is completed by the next upload
      nobody gets in the way of, however its body arrives; that upload is never refused. */
  lemma OpenDownloadCanComplete(content: Bytes, metadata: string, actions: seq<Action>, pieces: seq<Bytes>)
    requires 1 <= |content| < U64_LIMIT
    ensures
      var s := Exec(content, Start(metadata), actions);
      s.running && s.mailbox == [] && s.session.downloader.Connected? ==>
        var download, position := s.session.downloader.token, s.session.downloader.position;
        && download in s.downloads
        && (s.downloads[download].start <= |content| ==>
              && position <= |content|
              && (Concat(pieces) == content[position..] ==>
                    var t := Exec(content, s, WholeUpload(content, position, pieces, s.nextToken));
                    && s.nextToken in t.uploads && t.uploads[s.nextToken].response == Some(Ok)
                    && Carried(EventsTo(t.log, download)) == content[s.downloads[download].start..]))
  {
    hide Inv, Exec, WholeUpload, Carried, EventsTo, Concat;
    var s := Exec(content, Start(metadata), actions);
    StartIsInv(content, metadata);
    ExecKeepsInv(content, Start(metadata), actions);
    if s.running && s.mailbox == [] && s.session.downloader.Connected? {
      ConnectedIsIdle(content, s);
      var download, position := s.session.downloader.token, s.session.downloader.position;
      if s.downloads[download].start <= |content| && Concat(pieces) == content[position..] {
        WholeUploadCompletes(content, s, download, position, pieces);
      }
    }
  }

  /** An idle session takes a new downloader. */
  lemma JoiningConnects(content: Bytes, s: System)
    requires |content| < U64_LIMIT && Inv(content, s) && s.running && s.mailbox == []
    ensures
      var t := Apply(content, Apply(content, s, GetContent(None)), Serve);
      && Inv(content, t) && t.running && t.mailbox == [] && t.session.IsDownloader(s.nextToken)
      && s.nextToken in t.downloads && t.downloads[s.nextToken].start == 0
  {
    hide Inv;
    ApplyKeepsInv(content, s, GetContent(None));
    ApplyKeepsInv(content, Apply(content, s, GetContent(None)), Serve);
    assert Range.DownloadPositionOf(None) == Success(Range.At(0));
    assert Apply(content, s, GetContent(None)).mailbox == [StartDownload(s.nextToken, 0, Reply(s.nextToken, 0))];
  }

  /** Nothing wedges a session. From any reachable state, serving what is in the mailbox either
      ends the session or leaves it able to transfer everything: a downloader that then joins
      and an upload from where it stands get it all of the content. */
  lemma TransfersCanAlwaysComplete(content: Bytes, metadata: string, actions: seq<Action>, pieces: seq<Bytes>)
    requires 1 <= |content| < U64_LIMIT
    ensures
      var s := Exec(content, Start(metadata), actions);
      var served := Exec(content, s, Serves(|s.mailbox|));
      served.running ==>
        && var joined := Exec(content, served, [GetContent(None), Serve]);
        && joined.running && joined.session.IsDownloader(served.nextToken)
        && var position := joined.session.downloader.position;
        && position <= |content|
        && (Concat(pieces) == content[position..] ==>
              var t := Exec(content, joined, WholeUpload(content, position, pieces, joined.nextToken));
              && joined.nextToken in t.uploads && t.uploads[joined.nextToken].response == Some(Ok)
              && served.nextToken in t.downloads && Carried(EventsTo(t.log, served.nextToken)) == content)
  {
    hide Inv, Apply, Exec, WholeUpload, Carried, EventsTo, Concat;
    var s := Exec(content, Start(metadata), actions);
    StartIsInv(content, metadata);
    ExecKeepsInv(content, Start(metadata), actions);
    ServesEmpty(content, s, |s.mailbox|);
    var served := Exec(content, s, Serves(|s.mailbox|));
    if served.running {
      JoiningConnects(content, served);
      var joined := Exec(content, served, [GetContent(None), Serve]);
      ExecTwo(content, served, GetContent(None), Serve, []);
      ExecNone(content, Apply(content, Apply(content, served, GetContent(None)), Serve));
      assert [GetContent(None), Serve] + [] == [GetContent(None), Serve];
      ConnectedIsIdle(content, joined);
      var position := joined.session.downloader.position;
      if Concat(pieces) == content[position..] {
        WholeUploadCompletes(content, joined, served.nextToken, position, pieces);
      }
    }
  }
}
