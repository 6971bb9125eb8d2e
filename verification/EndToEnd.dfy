// The clients and the relay together: what an uploader sends reaches the session as its
// content, and what a downloader collects over any number of resumed requests is that content.

module EndToEnd {
  import opened Base
  import opened RelaySession
  import opened Effects
  import opened Api
  import opened RelaySystem
  import opened RelayInvariant
  import opened RelayTheorems
  import opened RelayUploads
  import ApiClient
  import DI = DownloadInvariant
  import Range

  /** Every content request a negotiating uploader sends is honest. */
  lemma {:induction false} NegotiatedIsHonest(file: Bytes, position: nat, turns: seq<ApiClient.Exchange>, i: nat)
    requires ApiClient.Negotiated(file, position, turns) && i < |turns| && |file| >= 1
    ensures turns[i].position <= |file|
    ensures turns[i].sent.Some? ==>
      HonestFrom(file, turns[i].sent.value, turns[i].position) && Honest(file, turns[i].sent.value)
    decreases i
  {
    if i > 0 {
      NegotiatedIsHonest(file, turns[0].After(), turns[1..], i - 1);
    }
  }

  /** However its body arrives, such a request becomes an upload that stands exactly where the
      client stood, with exactly the rest of the file to send. */
  lemma ClientRequestIsTaken(file: Bytes, s: System, turns: seq<ApiClient.Exchange>, i: nat, pieces: seq<Bytes>)
    requires 1 <= |file| < U64_LIMIT && ApiClient.Negotiated(file, 0, turns) && i < |turns|
    requires turns[i].sent.Some? && Concat(pieces) == turns[i].sent.value.body
    ensures
      var t := Apply(file, s, PostUpload(turns[i].sent.value, pieces));
      && s.nextToken in t.uploads && turns[i].position <= |file|
      && t.uploads[s.nextToken].position == turns[i].position
      && DataOf(t.uploads[s.nextToken].chunks) == file[turns[i].position..]
      && Plan(file, turns[i].position, t.uploads[s.nextToken].chunks)
  {
    hide Range.UploadPositionOf, Range.PrintContentRange;
    NegotiatedIsHonest(file, 0, turns, i);
    HonestIsRead(file, turns[i].sent.value, turns[i].position);
    ChunkedIsPlan(file, turns[i].position, pieces);
    ChunkedKeepsBody(pieces);
  }

  /** What the client makes of an upload's response. */
  function AsReply(response: Response): ApiClient.HttpReply {
    match response
    case Ok => ApiClient.StatusOk
    case Conflict(position) => ApiClient.Conflict(position)
    case Error(reason) => ApiClient.StatusError(reason)
    case NotFoundStatus => ApiClient.OtherStatus
    case BodyFailed => ApiClient.OtherStatus
  }

  /** The reply a client got to a content request is the response of this upload, if it got
      one at all. */
  predicate AnsweredBy(s: System, token: Token, reply: ApiClient.HttpReply) {
    reply != ApiClient.NoReply ==>
      token in s.uploads && s.uploads[token].response.Some? && reply == AsReply(s.uploads[token].response.value)
  }

  lemma OkReplyIsReal(content: Bytes, s: System, token: Token)
    requires |content| < U64_LIMIT && Reachable(content, s) && AnsweredBy(s, token, ApiClient.StatusOk)
    ensures token in s.uploads && (ToldFinished(s, token) || WasDelivered(content, s, token))
  {
    hide Exec, Reachable, ToldFinished, WasDelivered;
    UploadOkIsReal(content, s, token);
  }

  /** Nobody is told of a finish in a run without one. */
  lemma NobodyToldFinished(content: Bytes, metadata: string, actions: seq<Action>, token: Token)
    requires |content| < U64_LIMIT && forall action <- actions :: !AsksToFinish(action)
    requires token in Exec(content, Start(metadata), actions).uploads
    ensures !ToldFinished(Exec(content, Start(metadata), actions), token)
  {
    hide Inv, Exec, AsksToFinish, FinishFree;
    StartIsInv(content, metadata);
    StartIsFinishFree(metadata);
    FinishedNeedsEof(content, Start(metadata), actions);
  }

  /** An upload through the relay, over any run of it and however often it has to move and try
      again: if it reports success, the upload its last request became was told that the
      download is finished, or a download took that upload's own last chunk and has been sent
      the file from its start to the end; and the latter whenever nobody asked to finish. */
  method UploadThroughRelay(file: Bytes, ghost metadata: string, ghost actions: seq<Action>,
                            checks: seq<ApiClient.HttpReply>, answers: seq<ApiClient.HttpReply>,
                            ghost tokens: seq<Token>)
    returns (turns: seq<ApiClient.Exchange>, outcome: ApiClient.UploadOutcome)
    requires 1 <= |file| < U64_LIMIT && |tokens| == |answers|
    requires forall i :: 0 <= i < |answers| ==>
      AnsweredBy(Exec(file, Start(metadata), actions), tokens[i], answers[i])
    ensures ApiClient.Negotiated(file, 0, turns)
    ensures outcome.Uploaded? ==>
      var s := Exec(file, Start(metadata), actions);
      var n := |ApiClient.AnswersIn(turns)|;
      && 0 < n <= |tokens| && tokens[n - 1] in s.uploads
      && (ToldFinished(s, tokens[n - 1]) || WasDelivered(file, s, tokens[n - 1]))
      && ((forall action <- actions :: !AsksToFinish(action)) ==> WasDelivered(file, s, tokens[n - 1]))
  {
    hide Exec, AnsweredBy, ToldFinished, WasDelivered, AsksToFinish, ApiClient.Negotiated;
    turns, outcome := ApiClient.UploadFile(file, checks, answers);
    if outcome.Uploaded? {
      ghost var s := Exec(file, Start(metadata), actions);
      ghost var n := |ApiClient.AnswersIn(turns)|;
      LastIsAnswered(file, turns);
      assert answers[n - 1] == ApiClient.StatusOk;
      OkReplyIsReal(file, s, tokens[n - 1]);
      if forall action <- actions :: !AsksToFinish(action) {
        NobodyToldFinished(file, metadata, actions, tokens[n - 1]);
      }
    }
  }

  /** A negotiation that ends in success ends in a content request answered ok. */
  lemma {:induction false} LastIsAnswered(file: Bytes, turns: seq<ApiClient.Exchange>)
    requires turns != [] && turns[|turns| - 1].Reply() == ApiClient.StatusOk
    requires ApiClient.Negotiated(file, 0, turns)
    ensures
      var answers := ApiClient.AnswersIn(turns);
      answers != [] && answers[|answers| - 1] == ApiClient.StatusOk
  {
    SentWhenChecked(file, 0, turns, |turns| - 1);
  }

  lemma {:induction false} SentWhenChecked(file: Bytes, position: nat, turns: seq<ApiClient.Exchange>, i: nat)
    requires ApiClient.Negotiated(file, position, turns) && i < |turns|
    ensures turns[i].sent.Some? <==> turns[i].checked == ApiClient.StatusOk
    decreases i
  {
    if i > 0 {
      SentWhenChecked(file, turns[0].After(), turns[1..], i - 1);
    }
  }

  /** A client refused with an offset is accepted there, in the same state of the relay; and if
      that offset is past the end of its file, it is because a downloader asked for it. */
  lemma ConflictIsAnOffer(content: Bytes, s: System, position: Position)
    requires |content| < U64_LIMIT && Reachable(content, s) && s.running
    requires CheckStart(s.session, position).Refused?
    ensures
      var refused := CheckStart(s.session, position).error;
      && refused.Position? && CheckStart(s.session, refused.position).Accepted?
      && (refused.position > |content| ==>
            && s.session.downloader.Connected? && s.session.downloader.token in s.downloads
            && s.downloads[s.session.downloader.token].start == refused.position)
  {
    hide Exec, Reachable, DI.DownloadOk;
    ReachableIsInv(content, s);
    if s.session.downloader.Connected? {
      var token := s.session.downloader.token;
      assert TokenOk(content, s, token);
      DownloaderStands(content, token, s.downloads[token], FromSender(s.mailbox, token), s.session,
                       EventsTo(s.log, token));
    }
  }

  /** A connected downloader past the end of the content is where it asked to be. */
  lemma DownloaderStands(content: Bytes, token: Token, d: DownloadHandler, queue: seq<Command>, s: Session,
                         events: seq<DownloadEvent>)
    requires DI.DownloadOk(content, token, d, queue, s, events) && s.IsDownloader(token)
    ensures s.downloader.position > |content| ==> s.downloader.position == d.start
  {
    FollowsIsStretch(content, d.start, events);
  }

  /** The response body a client read came from this download: it asked with this range, and
      the bytes it read, cut up anyhow and cut off anywhere, are what the download's body read. */
  predicate CameFrom(s: System, token: Token, range: string, attempt: ApiClient.Attempt) {
    && token in s.downloads
    && s.downloads[token].range == Some(range)
    && s.downloads[token].taken <= |EventsTo(s.log, token)|
    && Concat(attempt.pieces) <= Carried(EventsTo(s.log, token)[..s.downloads[token].taken])
  }

  /** A relayed response carries the content from the offset asked for. */
  lemma RelayDelivers(content: Bytes, s: System, token: Token, offset: nat, attempt: ApiClient.Attempt)
    requires |content| < U64_LIMIT && Reachable(content, s) && offset <= |content|
    ensures CameFrom(s, token, Range.PrintRange(offset), attempt) ==> ApiClient.Delivers(content, offset, attempt)
  {
    hide Exec, Reachable, Range.DownloadPositionOf, Range.PrintRange;
    if CameFrom(s, token, Range.PrintRange(offset), attempt) {
      DownloadsAreByteExact(content, s, token);
      Range.RangeRoundTrips(offset);
      assert s.downloads[token].start == offset;
      var read, bytes := Carried(EventsTo(s.log, token)[..s.downloads[token].taken]), Concat(attempt.pieces);
      assert bytes == read[..|bytes|];
      assert content[offset..offset + |bytes|] == content[offset..offset + |read|][..|bytes|];
    }
  }

  /** Responses that came from these downloads, each asked for where the last one left off. */
  predicate CameInTurn(s: System, offset: nat, attempts: seq<ApiClient.Attempt>, tokens: seq<Token>)
    decreases |attempts|
  {
    && |tokens| == |attempts|
    && (attempts != [] ==>
          && CameFrom(s, tokens[0], Range.PrintRange(offset), attempts[0])
          && CameInTurn(s, offset + |Concat(attempts[0].pieces)|, attempts[1..], tokens[1..]))
  }

  /** The range each of them was asked for with. */
  lemma {:induction false} AskedInTurn(s: System, offset: nat, attempts: seq<ApiClient.Attempt>, tokens: seq<Token>,
                                       i: nat)
    requires CameInTurn(s, offset, attempts, tokens) && i < |attempts|
    ensures tokens[i] in s.downloads
    ensures s.downloads[tokens[i]].range == Some(Range.PrintRange(ApiClient.ResumeAt(offset, attempts, i)))
    decreases i
  {
    hide Range.PrintRange;
    if i > 0 {
      AskedInTurn(s, offset + |Concat(attempts[0].pieces)|, attempts[1..], tokens[1..], i - 1);
      ResumeShifts(offset, attempts, i - 1);
    } else {
      ApiClient.NothingReceived(offset, attempts);
    }
  }

  /** Any number of relayed responses, each asked for where the last one left off. */
  lemma {:induction false} RelayServes(content: Bytes, s: System, offset: nat, attempts: seq<ApiClient.Attempt>,
                                       tokens: seq<Token>)
    requires |content| < U64_LIMIT && Reachable(content, s) && offset <= |content|
    requires CameInTurn(s, offset, attempts, tokens)
    ensures ApiClient.Serves(content, offset, attempts)
    decreases |attempts|
  {
    hide Exec, Reachable, CameFrom, Range.PrintRange;
    if attempts != [] {
      RelayDelivers(content, s, tokens[0], offset, attempts[0]);
      RelayServes(content, s, offset + |Concat(attempts[0].pieces)|, attempts[1..], tokens[1..]);
    }
  }

  lemma {:induction false} ResumeShifts(offset: nat, attempts: seq<ApiClient.Attempt>, i: nat)
    requires i < |attempts|
    ensures ApiClient.ResumeAt(offset, attempts, i + 1)
         == ApiClient.ResumeAt(offset + |Concat(attempts[0].pieces)|, attempts[1..], i)
    decreases i
  {
    if i > 0 {
      ResumeShifts(offset, attempts, i - 1);
      assert attempts[1..][i - 1] == attempts[i];
    } else {
      assert ApiClient.ResumeAt(offset, attempts, 0) == offset;
    }
  }

  /** A download through the relay, over any run of it and any number of failed and resumed
      responses: each request sent is the one the relay answered, what is held is always a
      prefix of the uploaded content, and what is decrypted is all of it, once. */
  method DownloadThroughRelay(file: ApiClient.DecryptedFile, ghost content: Bytes, ghost s: System,
                              attempts: seq<ApiClient.Attempt>, ghost tokens: seq<Token>)
    returns (ranges: seq<string>, outcome: ApiClient.DownloadOutcome)
    requires |content| < U64_LIMIT && Reachable(content, s)
    requires file.fileSize == |content| && file.state == ApiClient.Unwritten([]) && file.decrypted == []
    requires CameInTurn(s, 0, attempts, tokens)
    modifies file
    ensures |ranges| <= |attempts|
    ensures forall i :: 0 <= i < |ranges| ==>
      tokens[i] in s.downloads && s.downloads[tokens[i]].range == Some(ranges[i])
    ensures file.Holds(content)
    ensures file.decrypted == [] || file.decrypted == [content]
    ensures outcome == ApiClient.Downloaded ==> file.decrypted == [content]
  {
    hide Exec, Reachable, CameFrom, Range.PrintRange, ApiClient.ResumeAt;
    RelayServes(content, s, 0, attempts, tokens);
    ranges, outcome := ApiClient.DownloadContent(file, content, attempts);
    forall i | 0 <= i < |ranges|
      ensures tokens[i] in s.downloads && s.downloads[tokens[i]].range == Some(ranges[i])
    {
      AskedInTurn(s, 0, attempts, tokens, i);
    }
  }

  /** A relayed body that ended because it was complete, read to its end, is all there was left:
      the client holds the whole content. */
  lemma CompletedBodyIsEnough(content: Bytes, s: System, token: Token, offset: nat, attempt: ApiClient.Attempt)
    requires |content| < U64_LIMIT && Reachable(content, s) && offset <= |content|
    requires CameFrom(s, token, Range.PrintRange(offset), attempt) && s.downloads[token].completed
    requires Concat(attempt.pieces) == Carried(EventsTo(s.log, token)[..s.downloads[token].taken])
    ensures offset + |Concat(attempt.pieces)| == |content|
  {
    hide Exec, Reachable, Range.DownloadPositionOf, Range.PrintRange, Running, TokensFit, IssuedFits, LogFits, Carried;
    hide DI.Follows;
    ReachableIsInv(content, s);
    Range.RangeRoundTrips(offset);
    var d := s.downloads[token];
    assert DownloadLogOk(content, s, token) && d.start == offset;
    DI.FinalReachesEnd(content, d.start, EventsTo(s.log, token), d.taken - 1);
  }
}
