// Serving a command keeps the relay's invariant.

module RelayServe {
  import opened Base
  import opened RelaySession
  import opened Effects
  import opened SessionSteps
  import opened SessionInvariant
  import opened RelaySystem
  import UI = UploadInvariant
  import DI = DownloadInvariant
  import opened RelayInvariant

  ghost predicate Serving(content: Bytes, s: System) {
    s.running && s.mailbox != [] && Running(content, s)
  }

  /** Only an upload request's commands reach the session as an upload's. */
  lemma UploadCommandIsCalled(content: Bytes, s: System)
    requires Serving(content, s)
    requires s.mailbox[0].StartUpload? || s.mailbox[0].UploadData?
    ensures
      var token := s.mailbox[0].token;
      && token in s.uploads && s.uploads[token].calls >= 1 && s.uploads[token].chunks != []
      && UploadTokenOk(content, s, token, s.uploads[token])
      && UI.Queued(token, s.uploads[token], FromSender(s.mailbox, token))
      && s.mailbox[0] == LastCall(token, s.uploads[token])
  {
    var head := s.mailbox[0];
    var token := head.token;
    assert head in s.mailbox && Tagged(head) && Sender(head) == Some(token);
    assert FromSender(s.mailbox, token) == [head] + FromSender(s.mailbox[1..], token);
    assert FromSender(s.mailbox, token)[0] == head;
    assert head in FromSender(s.mailbox, token) && Claims(head);
    assert TokenOk(content, s, token);
  }

  lemma HeadFits(content: Bytes, s: System)
    requires Serving(content, s)
    ensures CommandFits(content, s.session, s.mailbox[0])
    ensures s.mailbox[0].UploadData? && s.session.IsUploader(s.mailbox[0].token) ==> !s.session.pending.Data?
  {
    hide TokenOk;
    if s.mailbox[0].StartUpload? || s.mailbox[0].UploadData? {
      UploadCommandIsCalled(content, s);
    }
  }

  lemma HeadIsQueued(s: System, token: Token)
    requires s.mailbox != []
    ensures Sender(s.mailbox[0]) == Some(token) ==>
      FromSender(s.mailbox, token) != [] && FromSender(s.mailbox, token)[0] == s.mailbox[0]
      && s.mailbox[0] in FromSender(s.mailbox, token)
  {
    assert FromSender(s.mailbox, token)
        == (if Sender(s.mailbox[0]) == Some(token) then [s.mailbox[0]] else []) + FromSender(s.mailbox[1..], token);
  }

  lemma ServeReads(s: System, token: Token, reply: Reply)
    requires s.running && s.mailbox != []
    ensures EventsTo(OnServe(s).log, token) == EventsTo(s.log, token) + Delivers(s.session, s.mailbox[0], token)
    ensures AnswersTo(OnServe(s).log, reply) == AnswersTo(s.log, reply) + Answers(s.session, s.mailbox[0], reply)
  {
    hide Step;
    var effects := Step(s.session, s.mailbox[0]).effects;
    ProjectAppend(s.log, effects, EventTo(token));
    StepEvents(s.session, s.mailbox[0], token);
    ProjectAppend(s.log, effects, AnswerTo(reply));
    StepAnswers(s.session, s.mailbox[0], reply);
  }

  lemma ServeKeepsUpload(content: Bytes, s: System, token: Token)
    requires Serving(content, s) && OnServe(s).running
    requires token in s.uploads && UploadTokenOk(content, s, token, s.uploads[token])
    ensures UploadTokenOk(content, OnServe(s), token, s.uploads[token])
  {
    hide Step, UI.UploadOk, Answers, Consistent;
    var h, head := s.uploads[token], s.mailbox[0];
    var queue, answers := FromSender(s.mailbox, token), AnswersTo(s.log, LastReply(token, h));
    ServeReads(s, token, LastReply(token, h));
    assert head in s.mailbox;
    if Sender(head) == Some(token) {
      assert queue == [head] + FromSender(s.mailbox[1..], token);
      assert queue[0] == head && queue[1..] == FromSender(s.mailbox[1..], token);
      UI.ServingOwnKeeps(content, token, h, queue, s.session, answers);
    } else {
      assert queue == FromSender(s.mailbox[1..], token);
      UI.ServingOtherKeeps(content, token, h, queue, s.session, answers, head);
    }
  }

  predicate DownloadTokenOk(content: Bytes, s: System, token: Token, queue: seq<Command>)
    requires token in s.downloads
  {
    DI.DownloadOk(content, token, s.downloads[token], queue, s.session, EventsTo(s.log, token))
  }

  /** This holds even of the last command a session serves. */
  lemma ServeKeepsDownload(content: Bytes, s: System, token: Token)
    requires Serving(content, s)
    requires token in s.downloads && DownloadTokenOk(content, s, token, FromSender(s.mailbox, token))
    ensures DownloadTokenOk(content, OnServe(s), token, FromSender(s.mailbox[1..], token))
  {
    hide Step, Delivers;
    var d, head := s.downloads[token], s.mailbox[0];
    var queue, events := FromSender(s.mailbox, token), EventsTo(s.log, token);
    ServeReads(s, token, Reply(token, 0));
    HeadFits(content, s);
    HandedIsContent(content, s, token);
    assert head in s.mailbox;
    if Sender(head) == Some(token) {
      assert queue == [head] + FromSender(s.mailbox[1..], token);
      assert queue[0] == head && queue[1..] == FromSender(s.mailbox[1..], token);
      if DI.Unstarted(queue) {
        assert [] + Delivers(s.session, head, token) == Delivers(s.session, head, token);
        DI.OwnStartKeeps(content, token, d, queue, s.session);
      } else {
        DI.OwnGoodbyeKeeps(content, token, d, queue, s.session, events);
      }
    } else {
      assert queue == FromSender(s.mailbox[1..], token);
      DI.ServingOtherKeeps(content, token, d, queue, s.session, events, head);
    }
  }

  /** Whatever chunk this command hands over belongs where its downloader is. */
  lemma HandedIsContent(content: Bytes, s: System, token: Token)
    requires Serving(content, s) && CommandFits(content, s.session, s.mailbox[0])
    ensures
      var head := s.mailbox[0];
      && (s.session.IsDownloader(token) && !head.StartDownload? ==>
            DI.HandedFits(content, token, s.session, head, s.session.downloader.position))
      && (s.session.IsDownloader(token) && head.StartDownload? ==> !s.session.pending.Data?)
      && (head.StartDownload? ==> DI.HandedFits(content, token, s.session, head, head.position))
  {
  }

  /** A connection that is not a download is never sent an event. */
  lemma ServeKeepsEventless(content: Bytes, s: System, token: Token)
    requires Serving(content, s)
    requires token !in s.downloads && TokenOk(content, s, token)
    ensures Eventless(OnServe(s), token)
  {
    var head := s.mailbox[0];
    assert head in s.mailbox && Tagged(head);
    ServeReads(s, token, Reply(token, 0));
    HeadIsQueued(s, token);
    DI.StepDownloader(s.session, head, token);
  }

  lemma ServeKeepsBystander(content: Bytes, s: System, token: Token)
    requires Serving(content, s)
    requires BystanderOk(s, token)
    ensures BystanderOk(OnServe(s), token) || !OnServe(s).running
  {
    var head := s.mailbox[0];
    assert head in s.mailbox && Tagged(head);
    var queue := FromSender(s.mailbox, token);
    assert queue == (if Sender(head) == Some(token) then [head] else []) + FromSender(s.mailbox[1..], token);
    HeadIsQueued(s, token);
    StepKeepsUploaderGone(s.session, head, token);
    forall c | c in FromSender(s.mailbox[1..], token) ensures !Claims(c) {
      assert c in queue;
    }
  }

  lemma ServeKeepsToken(content: Bytes, s: System, token: Token)
    requires Serving(content, s) && OnServe(s).running
    ensures TokenOk(content, OnServe(s), token)
  {
    hide Step, UploadTokenOk, DI.DownloadOk, BystanderOk, Eventless;
    assert TokenOk(content, s, token);
    if token in s.uploads {
      ServeKeepsUpload(content, s, token);
    }
    if token in s.downloads {
      ServeKeepsDownload(content, s, token);
    } else {
      ServeKeepsEventless(content, s, token);
      if token !in s.uploads {
        ServeKeepsBystander(content, s, token);
      }
    }
  }

  lemma ServeKeepsDownloadLog(content: Bytes, s: System, token: Token)
    requires Serving(content, s) && token in s.downloads && DownloadLogOk(content, s, token)
    ensures DownloadLogOk(content, OnServe(s), token)
  {
    hide Step;
    assert TokenOk(content, s, token);
    ServeKeepsDownload(content, s, token);
  }

  lemma ServeBalances(s: System, reply: Reply)
    requires s.running && s.mailbox != [] && OnServe(s).running && Balanced(s, reply)
    ensures Balanced(OnServe(s), reply)
  {
    hide Step;
    ProjectAppend(s.log, Step(s.session, s.mailbox[0]).effects, UseOf(reply));
    StepConservesReplies(s.session, s.mailbox[0], reply);
  }

  lemma ServeKeepsLog(content: Bytes, s: System)
    requires Inv(content, s) && s.running && s.mailbox != []
    ensures LogFits(OnServe(s))
  {
    hide Step, TokenOk, Consistent, ContentOk, DownloadLogOk;
    forall token: Token | token !in s.downloads ensures EventsTo(OnServe(s).log, token) == [] {
      assert TokenOk(content, s, token);
      ServeKeepsEventless(content, s, token);
    }
    forall reply: Reply | reply !in s.issued ensures AnswersTo(OnServe(s).log, reply) == [] {
      assert Balanced(s, reply);
      ProjectAppend(s.log, Step(s.session, s.mailbox[0]).effects, UseOf(reply));
      StepConservesReplies(s.session, s.mailbox[0], reply);
      AnswersAreUses(OnServe(s).log, reply);
    }
  }

  lemma ServeKeepsInv(content: Bytes, s: System)
    requires Inv(content, s) && s.running && s.mailbox != []
    ensures Inv(content, OnServe(s))
  {
    hide Step, TokenOk, Balanced, Consistent, ContentOk, DownloadLogOk, LogFits;
    var t := OnServe(s);
    forall token | token in s.downloads ensures DownloadLogOk(content, t, token) {
      assert DownloadLogOk(content, s, token);
      ServeKeepsDownloadLog(content, s, token);
    }
    ServeKeepsLog(content, s);
    if t.running {
      forall token: Token ensures TokenOk(content, t, token) {
        ServeKeepsToken(content, s, token);
      }
      forall reply: Reply ensures Balanced(t, reply) {
        assert Balanced(s, reply);
        ServeBalances(s, reply);
      }
      HeadFits(content, s);
      StepKeepsContent(content, s.session, s.mailbox[0]);
      StepKeepsConsistent(s.session, s.mailbox[0]);
    }
  }
}
