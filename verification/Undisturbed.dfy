// A client and a relay nobody else is using: wherever the connected downloader stands, the
// upload negotiation finds it in at most two turns and completes its download.

module Undisturbed {
  import opened Base
  import opened RelaySession
  import opened Effects
  import opened SessionInvariant
  import opened Api
  import opened RelaySystem
  import opened RelayInvariant
  import opened RelayServe
  import opened RelayActions
  import opened RelayTheorems
  import opened RelayProgress
  import opened EndToEnd
  import ApiClient

  /** A client asks whether it could start here, and is answered. */
  function Asking(position: Position): seq<Action> {
    [PostStart(position), Serve]
  }

  /** What the client makes of the answer to its check. */
  function CheckReply(checked: UploadResult): ApiClient.HttpReply {
    match checked
    case Accepted => ApiClient.StatusOk
    case Refused(error) => AsReply(UploadErrorResponse(error))
  }

  /** The replies in these turns are those that the relay gives when it starts from `s` and
      nobody else does anything; `t` is where that leaves it. Bodies arrive in `pieces`. */
  ghost predicate Replied(file: Bytes, s: System, turns: seq<ApiClient.Exchange>, pieces: seq<Bytes>, t: System)
    requires |file| >= 1
    decreases |turns|
  {
    if turns == [] then t == s
    else
      var turn, asked := turns[0], Exec(file, s, Asking(turns[0].position));
      && AnswersTo(asked.log, Reply(s.nextToken, 0)) != []
      && turn.checked == CheckReply(AnswersTo(asked.log, Reply(s.nextToken, 0))[0])
      && if turn.sent.None? then Replied(file, asked, turns[1..], pieces, t)
         else
           && turn.position <= |file| && turn.sent.value == Posting(file, turn.position, pieces).request
           && var answered := Exec(file, asked, WholeUpload(file, turn.position, pieces, asked.nextToken));
           && asked.nextToken in answered.uploads && answered.uploads[asked.nextToken].response.Some?
           && turn.answered == AsReply(answered.uploads[asked.nextToken].response.value)
           && Replied(file, answered, turns[1..], pieces, t)
  }

  /** A check is answered by the position of the connected downloader, and changes nothing. */
  lemma AskingKeepsIdle(content: Bytes, s: System, download: Token, position: Position, asked: Position)
    requires |content| < U64_LIMIT && Idle(content, s, download, position)
    ensures
      var t := Exec(content, s, Asking(asked));
      && Idle(content, t, download, position) && t.downloads == s.downloads
      && AnswersTo(t.log, Reply(s.nextToken, 0))
         == [if asked == position then Accepted else Refused(Position(position))]
  {
    hide Inv, Exec, AnswersTo;
    var posted := Apply(content, s, PostStart(asked));
    var t := Apply(content, posted, Serve);
    ApplyKeepsInv(content, s, PostStart(asked));
    ApplyKeepsInv(content, posted, Serve);
    NewTokenIsClean(content, s, 0);
    IdleIsConsistent(content, s);
    assert posted.mailbox == [CheckStartUpload(asked, Reply(s.nextToken, 0))];
    ServeReads(posted, 0, Reply(s.nextToken, 0));
    ExecTwo(content, s, PostStart(asked), Serve, []);
    ExecNone(content, t);
    assert [PostStart(asked), Serve] + [] == Asking(asked);
  }

  lemma IdleIsConsistent(content: Bytes, s: System)
    requires Inv(content, s) && s.running
    ensures Consistent(s.session)
  {
  }

  /** Told where to go, if it is not there already, the client goes there and succeeds. */
  lemma TurnsTaken(file: Bytes, position: nat, turns: seq<ApiClient.Exchange>, outcome: ApiClient.UploadOutcome)
    requires position <= |file| && ApiClient.Negotiated(file, 0, turns)
    requires
      var checks := if position == 0 then [ApiClient.StatusOk] else [ApiClient.Conflict(position), ApiClient.StatusOk];
      && |turns| <= |checks| && (forall i :: 0 <= i < |turns| ==> turns[i].checked == checks[i])
      && (outcome.GaveUp? && |turns| < |checks| && ApiClient.AnswersIn(turns) == [] ==>
            turns != [] && ApiClient.MayGiveUp(turns[|turns| - 1]))
    requires ApiClient.AnswersIn(turns) <= [ApiClient.StatusOk]
    requires outcome.Uploaded? <==> turns != [] && turns[|turns| - 1].Reply() == ApiClient.StatusOk
    requires outcome.PastEnd? <==> ApiClient.LastPosition(0, turns) > |file|
    ensures outcome.Uploaded? && |turns| == if position == 0 then 1 else 2
    ensures
      var last := turns[|turns| - 1];
      && last.position == position && last.checked == ApiClient.StatusOk
      && last.sent.Some? && RelaySystem.HonestFrom(file, last.sent.value, position)
      && last.answered == ApiClient.StatusOk
    ensures position > 0 ==>
      turns[0].position == 0 && turns[0].checked == ApiClient.Conflict(position) && turns[0].sent.None?
  {
    hide HonestFrom;
    if |turns| == 1 {
      assert turns[..0] == [] && ApiClient.AnswersIn(turns[..0]) == [];
    } else if |turns| == 2 {
      assert turns[..1] == [turns[0]] && turns[..1][..0] == [] && turns[1..][0] == turns[1];
      assert ApiClient.AnswersIn(turns[..1]) == [];
    }
  }

  /** From every state of the relay in which the session is idle and a downloader that asked
      for a place within the file is connected: a client nobody gets in the way of, however its
      body arrives, reports success after at most one conflict, and by then the downloader has
      been sent the file from its start to the end. */
  method UploadUndisturbed(file: Bytes, position: nat, ghost metadata: string, ghost actions: seq<Action>,
                           ghost pieces: seq<Bytes>)
    returns (turns: seq<ApiClient.Exchange>, outcome: ApiClient.UploadOutcome, ghost t: System)
    requires 1 <= |file| < U64_LIMIT
    requires
      var s := Exec(file, Start(metadata), actions);
      && s.running && s.mailbox == []
      && s.session.downloader.Connected? && s.session.downloader.position == position
      && (s.session.downloader.token in s.downloads ==> s.downloads[s.session.downloader.token].start <= |file|)
    requires position <= |file| ==> Concat(pieces) == file[position..]
    ensures outcome.Uploaded? && |turns| == if position == 0 then 1 else 2
    ensures
      var s := Exec(file, Start(metadata), actions);
      var download := s.session.downloader.token;
      && Replied(file, s, turns, pieces, t)
      && download in t.downloads && t.downloads[download].start <= |file|
      && Carried(EventsTo(t.log, download)) == file[t.downloads[download].start..]
  {
    hide Exec, Inv, Carried, EventsTo, Concat, ApiClient.Negotiated, ApiClient.AnswersIn;
    ghost var s := Exec(file, Start(metadata), actions);
    ghost var download := s.session.downloader.token;
    StartIsInv(file, metadata);
    ExecKeepsInv(file, Start(metadata), actions);
    ConnectedIsIdle(file, s);
    var checks := if position == 0 then [ApiClient.StatusOk] else [ApiClient.Conflict(position), ApiClient.StatusOk];
    turns, outcome := ApiClient.UploadFile(file, checks, [ApiClient.StatusOk]);
    TurnsTaken(file, position, turns, outcome);
    if position == 0 {
      t := LastTurn(file, s, download, position, turns[0], pieces);
      assert turns == [turns[0]];
    } else {
      AskingKeepsIdle(file, s, download, position, 0);
      ghost var asked := Exec(file, s, Asking(0));
      t := LastTurn(file, asked, download, position, turns[1], pieces);
      assert turns[1..] == [turns[1]];
    }
  }

  /** The turn that finds the downloader where the client stands. */
  lemma LastTurn(file: Bytes, s: System, download: Token, position: Position, turn: ApiClient.Exchange,
                 pieces: seq<Bytes>) returns (t: System)
    requires 1 <= |file| < U64_LIMIT && Idle(file, s, download, position) && Concat(pieces) == file[position..]
    requires download in s.downloads && s.downloads[download].start <= |file|
    requires turn.position == position && turn.checked == turn.answered == ApiClient.StatusOk
    requires turn.sent.Some? && HonestFrom(file, turn.sent.value, position)
    ensures Replied(file, s, [turn], pieces, t)
    ensures t.downloads == s.downloads
    ensures Carried(EventsTo(t.log, download)) == file[s.downloads[download].start..]
  {
    hide Exec, Inv, Carried, EventsTo, Concat, WholeUpload, AnswersTo;
    AskingKeepsIdle(file, s, download, position, position);
    var asked := Exec(file, s, Asking(position));
    WholeUploadCompletes(file, asked, download, position, pieces);
    t := Exec(file, asked, WholeUpload(file, position, pieces, asked.nextToken));
    assert [turn][1..] == [] && Replied(file, t, [], pieces, t);
  }
}
