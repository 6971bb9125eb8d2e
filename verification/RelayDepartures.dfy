// A download that has said goodbye is gone: the session does not count on it, and never sends
// it anything again.

module RelayDepartures {
  import opened Base
  import opened RelaySession
  import opened Effects
  import opened SessionInvariant
  import opened SessionTheorems
  import opened SessionLaws
  import opened RelaySystem
  import DI = DownloadInvariant
  import opened RelayInvariant
  import opened RelayActions
  import opened RelayTheorems
  import opened RelayTokens

  /** The download's body was read and dropped, and its goodbye has been served. */
  predicate Departed(s: System, token: Token) {
    token in s.downloads && s.downloads[token].phase.Closed? && FromSender(s.mailbox, token) == []
  }

  lemma {:induction false} NothingSentNoStart(mailbox: seq<Command>, token: Token)
    requires FromSender(mailbox, token) == [] && AllTagged(mailbox)
    ensures StartsIn(mailbox, token) == 0
  {
    if mailbox != [] {
      assert mailbox[0] in mailbox;
      assert forall c <- mailbox[1..] :: c in mailbox;
      NothingSentNoStart(mailbox[1..], token);
    }
  }

  lemma DepartedIsKnown(content: Bytes, s: System, token: Token)
    requires Inv(content, s) && s.running && Departed(s, token)
    ensures !s.session.IsDownloader(token) && token < s.nextToken && AllTagged(s.mailbox)
  {
    assert TokenOk(content, s, token);
  }

  /** In every reachable state, a departed download is not the connected downloader, and whatever
      the relay does from then on, its event channel is sent nothing more. */
  lemma DepartedHearsNothing(content: Bytes, metadata: string, before: seq<Action>, token: Token, actions: seq<Action>)
    requires |content| < U64_LIMIT
    ensures
      var s := Exec(content, Start(metadata), before);
      var t := Exec(content, s, actions);
      s.running && Departed(s, token) ==>
        && !s.session.IsDownloader(token) && EventsTo(t.log, token) == EventsTo(s.log, token)
        && (t.running ==> !t.session.IsDownloader(token))
  {
    hide Exec, Inv, Departed, EventsTo;
    var s := Exec(content, Start(metadata), before);
    StartIsInv(content, metadata);
    ExecKeepsInv(content, Start(metadata), before);
    if s.running && Departed(s, token) { DepartedStays(content, s, token, actions); }
  }

  lemma DepartedStays(content: Bytes, s: System, token: Token, actions: seq<Action>)
    requires Inv(content, s) && s.running && Departed(s, token)
    ensures !s.session.IsDownloader(token)
    ensures EventsTo(Exec(content, s, actions).log, token) == EventsTo(s.log, token)
    ensures
      var t := Exec(content, s, actions);
      t.running ==> !t.session.IsDownloader(token)
  {
    hide Exec, Inv, Run, Starts, ServedAlong, EventsTo, AllTagged;
    DepartedIsKnown(content, s, token);
    NothingSentNoStart(s.mailbox, token);
    GoneStaysGone(content, s, actions, token);
    ExecRuns(content, s, actions);
    var commands := ServedAlong(content, s, actions);
    assert forall c <- commands :: !(c.StartDownload? && c.token == token) by { StartsAreStarts(commands, token); }
    NeverHears(s.session, commands, token);
    SentSoFar(s.log, Run(s.session, commands).effects, token);
  }

  lemma StartsAreStarts(commands: seq<Command>, token: Token)
    requires forall c <- commands :: !Starts(c, token)
    ensures forall c <- commands :: !(c.StartDownload? && c.token == token)
  {
  }

  lemma SentSoFar(before: seq<Effect>, more: seq<Effect>, token: Token)
    requires EventsTo(more, token) == []
    ensures EventsTo(before + more, token) == EventsTo(before, token)
  {
    ProjectAppend(before, more, EventTo(token));
  }

  /** A live upload request that is dropped, wherever it is, says goodbye behind everything sent
      before, and answers nobody. */
  lemma DroppedUploadLeaves(content: Bytes, s: System, token: Token)
    requires s.running && LiveUpload(s, token)
    ensures
      var t := Apply(content, s, UploadDropped(token));
      && t.mailbox == s.mailbox + [Command.Disconnected(token, Uploader)] && t.session == s.session && t.log == s.log
      && token in t.uploads && !t.uploads[token].alive && t.uploads[token].response.None?
  {
  }

  /** In every reachable state, an upload request that has ended, one way or the other, and whose
      goodbye has been served is not the registered uploader; and it never is again. */
  lemma DepartedUploadIsGone(content: Bytes, s: System, token: Token, actions: seq<Action>)
    requires |content| < U64_LIMIT && Reachable(content, s) && s.running
    requires token in s.uploads && !s.uploads[token].alive && FromSender(s.mailbox, token) == []
    ensures !s.session.IsUploader(token)
    ensures
      var t := Exec(content, s, actions);
      t.running ==> !t.session.IsUploader(token)
  {
    hide Exec, Inv, Reachable, Run, Starts, ServedAlong, AllTagged;
    ReachableIsInv(content, s);
    DepartedUploadIsKnown(content, s, token);
    NothingSentNoStart(s.mailbox, token);
    GoneStaysGone(content, s, actions, token);
    ExecRuns(content, s, actions);
    var commands := ServedAlong(content, s, actions);
    assert forall c <- commands :: !Restarts(c, token) by { RestartsAreStarts(commands, token); }
    UploaderStaysGone(s.session, commands, token);
  }

  lemma DepartedUploadIsKnown(content: Bytes, s: System, token: Token)
    requires Inv(content, s) && s.running
    requires token in s.uploads && !s.uploads[token].alive && FromSender(s.mailbox, token) == []
    ensures !s.session.IsUploader(token) && token < s.nextToken && AllTagged(s.mailbox)
  {
    UploadKnown(content, s, token);
  }

  lemma RestartsAreStarts(commands: seq<Command>, token: Token)
    requires forall c <- commands :: !Starts(c, token)
    ensures forall c <- commands :: !Restarts(c, token)
  {
  }

  /** A download request dropped before it was answered says nothing to anybody. */
  lemma UnansweredDropIsSilent(content: Bytes, s: System, token: Token)
    requires token in s.downloads && s.downloads[token].phase.Requested?
    ensures Apply(content, s, DownloadDropped(token))
         == s.(downloads := s.downloads[token := s.downloads[token].(phase := Dropped)])
  {
  }
}
