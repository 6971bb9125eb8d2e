// Transfers can always be brought to their end: the downloader reads everything, says so, and
// the session is over.

module RelayEnding {
  import opened Base
  import opened RelaySession
  import opened Effects
  import opened Api
  import opened RelaySystem
  import DI = DownloadInvariant
  import opened RelayInvariant
  import opened RelayActions
  import opened RelayTheorems
  import opened RelayUploads
  import opened RelayProgress
  import Range

  /** A client joins and gets its response. */
  function Joining(token: Token): seq<Action> {
    [GetContent(None), Serve] + [DownloadAnswered(token)]
  }

  /** It reads its body this often. */
  function Polls(n: nat, token: Token): seq<Action> {
    if n == 0 then [] else [DownloadPolled(token)] + Polls(n - 1, token)
  }

  /** It is done with the body, and the session hears of it after the uploader's goodbye. */
  function Leaving(token: Token): seq<Action> {
    [DownloadDropped(token), Serve] + [Serve]
  }

  /** The session is idle but for a new download that has its response and has read nothing. */
  ghost predicate Joined(content: Bytes, s: System, token: Token) {
    && Inv(content, s) && s.running && s.mailbox == [] && s.session.IsDownloader(token)
    && token in s.downloads && s.downloads[token] == DownloadHandler(None, 0, Streaming, 0, false)
  }

  lemma JoiningStreams(content: Bytes, s: System)
    requires |content| < U64_LIMIT && Inv(content, s) && s.running && s.mailbox == []
    ensures Joined(content, Exec(content, s, Joining(s.nextToken)), s.nextToken)
  {
    hide Inv, Exec;
    var token := s.nextToken;
    var posted := Apply(content, s, GetContent(None));
    var served := Apply(content, posted, Serve);
    JoiningConnects(content, s);
    ApplyKeepsInv(content, served, DownloadAnswered(token));
    assert Range.DownloadPositionOf(None) == Success(Range.At(0));
    assert posted.mailbox == [StartDownload(token, 0, Reply(token, 0))];
    StartIsDone(s.log, s.session, token);
    ExecTwo(content, s, GetContent(None), Serve, [DownloadAnswered(token)]);
    ExecCons(content, served, DownloadAnswered(token), []);
    ExecNone(content, Apply(content, served, DownloadAnswered(token)));
    assert [DownloadAnswered(token)] + [] == [DownloadAnswered(token)];
  }

  lemma StartIsDone(log: seq<Effect>, s: Session, token: Token)
    ensures Project(log + Step(s, StartDownload(token, 0, Reply(token, 0))).effects, UseOf(Reply(token, 0))) != []
  {
    hide Project;
    var started := OnStartDownload(s, token, 0).effects;
    var done := Done(Reply(token, 0));
    ProjectAppend(log, started + [done], UseOf(Reply(token, 0)));
    ProjectAppend(started, [done], UseOf(Reply(token, 0)));
    ProjectOne(done, UseOf(Reply(token, 0)));
  }

  /** Reading on, with the final event at `last`: once it has been read, nothing more happens. */
  lemma {:induction false} PollsRead(content: Bytes, s: System, token: Token, last: nat, n: nat)
    requires token in s.downloads && s.downloads[token].phase.Streaming?
    requires
      var d, events := s.downloads[token], EventsTo(s.log, token);
      && last < |events| && events[last].Final? && (forall i :: 0 <= i < last ==> events[i].More?)
      && (if d.completed then d.taken == last + 1 else d.taken <= last && last + 1 - d.taken <= n)
    ensures
      var d := s.downloads[token].(taken := last + 1, completed := true);
      Exec(content, s, Polls(n, token)) == s.(downloads := s.downloads[token := d])
    decreases n
  {
    hide EventsTo, Range.DownloadPositionOf, Range.UploadPositionOf, OnUploadAnswer, OnServe, Honest;
    if n == 0 {
    } else {
      var next := Apply(content, s, DownloadPolled(token));
      assert Polls(n, token)[1..] == Polls(n - 1, token);
      PollsRead(content, next, token, last, n - 1);
    }
  }

  /** The first final event of a stream that has one and was not replaced. */
  lemma {:induction false} FirstFinal(events: seq<DownloadEvent>) returns (last: nat)
    requires HasFinal(events) && DI.Open(events)
    ensures last < |events| && events[last].Final? && forall i :: 0 <= i < last ==> events[i].More?
    decreases |events|
  {
    if events[0].Final? {
      last := 0;
    } else {
      var i :| 0 <= i < |events| && events[i].Final?;
      assert events[1..][i - 1].Final?;
      var rest := FirstFinal(events[1..]);
      last := rest + 1;
    }
  }

  /** The completed download leaves, and the session is over. */
  lemma LeavingEnds(content: Bytes, s: System, download: Token, token: Token)
    requires s.running && s.mailbox == [Command.Disconnected(token, Uploader)]
    requires s.session.IsDownloader(download) && download in s.downloads
    requires s.downloads[download].phase.Streaming? && s.downloads[download].completed
    ensures
      var t := Exec(content, s, Leaving(download));
      && !t.running && t.log == s.log && download in t.downloads
      && t.downloads[download] == s.downloads[download].(phase := Closed)
  {
    hide Exec, Range.DownloadPositionOf, Range.UploadPositionOf, OnUploadAnswer, Honest;
    var dropped := Apply(content, s, DownloadDropped(download));
    var served := Apply(content, dropped, Serve);
    assert dropped.mailbox == [Command.Disconnected(token, Uploader), Command.Disconnected(download, Downloader(true))];
    ExecTwo(content, s, DownloadDropped(download), Serve, [Serve]);
    ExecCons(content, served, Serve, []);
    ExecNone(content, Apply(content, served, Serve));
    assert [Serve] + [] == [Serve];
  }

  /** From any reachable state whose mailbox has been served and whose session goes on: a client
      joins, somebody uploads from where it stands, in any pieces, the client reads its body and
      lets go of it. By then it has read all of the content, and the session has ended. */
  lemma TransfersCanAlwaysEnd(content: Bytes, metadata: string, actions: seq<Action>, pieces: seq<Bytes>)
    requires 1 <= |content| < U64_LIMIT
    ensures
      var s := Exec(content, Start(metadata), actions);
      var served := Exec(content, s, Serves(|s.mailbox|));
      served.running ==>
        var download := served.nextToken;
        var joined := Exec(content, served, Joining(download));
        && joined.session.IsDownloader(download) && joined.session.downloader.position <= |content|
        && (Concat(pieces) == content[joined.session.downloader.position..] ==>
              var uploaded := Exec(content, joined, WholeUpload(content, joined.session.downloader.position, pieces,
                                                                 joined.nextToken));
              var read := Exec(content, uploaded, Polls(|EventsTo(uploaded.log, download)|, download));
              var t := Exec(content, read, Leaving(download));
              && !t.running && download in t.downloads && t.downloads[download].completed
              && t.downloads[download].taken <= |EventsTo(t.log, download)|
              && Carried(EventsTo(t.log, download)[..t.downloads[download].taken]) == content)
  {
    hide Inv, Apply, Exec, WholeUpload, Carried, EventsTo, Concat, Polls, HasFinal;
    var s := Exec(content, Start(metadata), actions);
    StartIsInv(content, metadata);
    ExecKeepsInv(content, Start(metadata), actions);
    ServesEmpty(content, s, |s.mailbox|);
    var served := Exec(content, s, Serves(|s.mailbox|));
    if served.running {
      var download := served.nextToken;
      JoiningStreams(content, served);
      var joined := Exec(content, served, Joining(download));
      ConnectedIsIdle(content, joined);
      var position := joined.session.downloader.position;
      if Concat(pieces) == content[position..] {
        WholeUploadCompletes(content, joined, download, position, pieces);
        ReadingEnds(content, Exec(content, joined, WholeUpload(content, position, pieces, joined.nextToken)), download,
                    joined.nextToken);
      }
    }
  }

  lemma ReadingEnds(content: Bytes, s: System, download: Token, token: Token)
    requires EndedWell(content, s, download, token)
    requires download in s.downloads && s.downloads[download] == DownloadHandler(None, 0, Streaming, 0, false)
    ensures
      var read := Exec(content, s, Polls(|EventsTo(s.log, download)|, download));
      var t := Exec(content, read, Leaving(download));
      && !t.running && download in t.downloads && t.downloads[download].completed
      && t.downloads[download].taken <= |EventsTo(t.log, download)|
      && Carried(EventsTo(t.log, download)[..t.downloads[download].taken]) == content
  {
    hide Inv, Apply, Exec, Carried, EventsTo, Polls, HasFinal, Leaving;
    var events := EventsTo(s.log, download);
    StreamFollows(content, s, download);
    var last := FirstFinal(events);
    PollsRead(content, s, download, last, |events|);
    LeavingEnds(content, Exec(content, s, Polls(|events|, download)), download, token);
    DI.FinalReachesEnd(content, 0, events, last);
    assert content[0..] == content;
  }

  lemma StreamFollows(content: Bytes, s: System, download: Token)
    requires Inv(content, s) && s.running && download in s.downloads && s.session.IsDownloader(download)
    ensures
      var events := EventsTo(s.log, download);
      DI.Open(events) && DI.Follows(content, s.downloads[download].start, events)
  {
    hide EventsTo;
    DownloadKnown(content, s, download);
  }
}
