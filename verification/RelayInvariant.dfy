// What every reachable state of the whole relay session keeps.

module RelayInvariant {
  import opened Base
  import opened RelaySession
  import opened Effects
  import opened SessionSteps
  import opened SessionInvariant
  import opened Api
  import opened RelaySystem
  import opened UploadInvariant
  import DI = DownloadInvariant
  import Range

  /** Nothing the session holds or expects is anything but the content. */
  predicate ContentOk(content: Bytes, s: Session) {
    && (s.pending.Data? ==> FitsAt(content, s.pending.position, s.pending.chunk))
    && (s.uploader.Some? ==> s.uploader.value.position <= |content|)
  }

  /** The registered uploader's next chunk is the content from where it is. */
  predicate CommandFits(content: Bytes, s: Session, command: Command) {
    && (Accepts(s, command) ==> FitsAt(content, s.uploader.value.position, command.chunk))
    && (command.StartUpload? ==> command.position <= |content|)
  }

  lemma StepKeepsContent(content: Bytes, s: Session, command: Command)
    requires Consistent(s) && ContentOk(content, s) && CommandFits(content, s, command)
    ensures ContentOk(content, Step(s, command).state)
  {
  }

  /** A command that can make its sender a peer of the transfer. */
  predicate Claims(command: Command) {
    command.StartUpload? || command.UploadData? || command.FlushUpload? || command.StartDownload?
  }

  /** A connection that is neither an upload nor a download. */
  predicate BystanderOk(s: System, token: Token) {
    && !s.session.IsUploader(token)
    && (forall c <- FromSender(s.mailbox, token) :: !Claims(c))
    && (token >= s.nextToken ==> FromSender(s.mailbox, token) == [])
  }

  predicate Eventless(s: System, token: Token) {
    !s.session.IsDownloader(token) && EventsTo(s.log, token) == []
  }

  predicate UploadTokenOk(content: Bytes, s: System, token: Token, h: UploadHandler) {
    && h.calls >= 1
    && UploadOk(content, token, h, FromSender(s.mailbox, token), s.session, AnswersTo(s.log, LastReply(token, h)))
  }

  predicate TokenOk(content: Bytes, s: System, token: Token) {
    && (token in s.uploads ==> UploadTokenOk(content, s, token, s.uploads[token]))
    && (token in s.downloads ==>
          DI.DownloadOk(content, token, s.downloads[token], FromSender(s.mailbox, token), s.session,
                        EventsTo(s.log, token)))
    && (token !in s.downloads ==> Eventless(s, token))
    && (token !in s.uploads && token !in s.downloads ==> BystanderOk(s, token))
  }

  /** Tokens are handed out once. */
  predicate TokensFit(s: System) {
    && (forall t <- s.uploads :: t < s.nextToken && t !in s.downloads && t !in s.sockets)
    && (forall t <- s.downloads :: t < s.nextToken && t !in s.sockets)
    && (forall t <- s.sockets :: t < s.nextToken)
  }

  /** How often a reply channel is in the mailbox. */
  function InMailbox(mailbox: seq<Command>, reply: Reply): nat {
    if mailbox == [] then 0 else Carries(mailbox[0], reply) + InMailbox(mailbox[1..], reply)
  }

  lemma {:induction false} InMailboxAppend(mailbox: seq<Command>, command: Command, reply: Reply)
    ensures InMailbox(mailbox + [command], reply) == InMailbox(mailbox, reply) + Carries(command, reply)
  {
    if mailbox == [] {
      assert mailbox + [command] == [command];
      assert InMailbox([command][1..], reply) == 0;
    } else {
      assert (mailbox + [command])[1..] == mailbox[1..] + [command];
      InMailboxAppend(mailbox[1..], command, reply);
    }
  }

  /** Each reply channel issued is in the mailbox, parked, or used, exactly once. */
  predicate Balanced(s: System, reply: Reply) {
    InMailbox(s.mailbox, reply) + Parked(s.session, reply) + |Project(s.log, UseOf(reply))|
    == if reply in s.issued then 1 else 0
  }

  /** Calls are numbered in order. */
  predicate IssuedFits(s: System) {
    forall r <- s.issued ::
      r.connection < s.nextToken && (r.connection in s.uploads ==> r.call < s.uploads[r.connection].calls)
  }

  predicate AllTagged(mailbox: seq<Command>) {
    forall c <- mailbox :: Tagged(c)
  }

  /** What a download request has been sent and has read, whether or not the session runs. */
  predicate DownloadLogOk(content: Bytes, s: System, token: Token)
    requires token in s.downloads
  {
    var d, events := s.downloads[token], EventsTo(s.log, token);
    && DI.Follows(content, d.start, events)
    && d.taken <= |events|
    && (d.completed ==> 0 < d.taken && events[d.taken - 1].Final?)
    && Range.DownloadPositionOf(d.range) == Success(Range.At(d.start))
  }

  ghost predicate Running(content: Bytes, s: System) {
    && Consistent(s.session)
    && ContentOk(content, s.session)
    && AllTagged(s.mailbox)
    && (forall token: Token :: TokenOk(content, s, token))
    && (forall reply: Reply :: Balanced(s, reply))
  }

  /** Only downloads are sent events, and only calls that were made are answered. */
  ghost predicate LogFits(s: System) {
    && (forall token: Token :: token !in s.downloads ==> EventsTo(s.log, token) == [])
    && (forall reply: Reply :: reply !in s.issued ==> AnswersTo(s.log, reply) == [])
  }

  ghost predicate Inv(content: Bytes, s: System) {
    && TokensFit(s)
    && LogFits(s)
    && IssuedFits(s)
    && (forall token <- s.downloads :: DownloadLogOk(content, s, token))
    && (s.running ==> Running(content, s))
  }

  lemma StartIsInv(content: Bytes, metadata: string)
    ensures Inv(content, Start(metadata))
  {
  }

  // ----- Actions of one connection -----

  /** `t` differs from `s` only in what belongs to one connection, and by at most one command
      that connection, or nobody, has sent. */
  ghost predicate Touches(s: System, t: System, token: Token) {
    && t.session == s.session && t.running == s.running && t.log == s.log
    && s.nextToken <= t.nextToken
    && (forall u :: u != token ==>
          (u in t.uploads <==> u in s.uploads) && (u in s.uploads ==> t.uploads[u] == s.uploads[u]))
    && (forall u :: u != token ==>
          (u in t.downloads <==> u in s.downloads) && (u in s.downloads ==> t.downloads[u] == s.downloads[u]))
    && (token in s.downloads ==> token in t.downloads)
    && s.issued <= t.issued
    && (t.mailbox == s.mailbox ||
        (|t.mailbox| == |s.mailbox| + 1 && t.mailbox == s.mailbox + [t.mailbox[|s.mailbox|]]
         && (Sender(t.mailbox[|s.mailbox|]) == Some(token) || Sender(t.mailbox[|s.mailbox|]) == None)))
  }

  lemma TouchKeepsOther(content: Bytes, s: System, t: System, token: Token, other: Token)
    requires Touches(s, t, token) && other != token
    requires TokenOk(content, s, other)
    ensures TokenOk(content, t, other)
  {
    hide UploadOk;
    hide DI.DownloadOk;
    if t.mailbox != s.mailbox {
      FromSenderAppend(s.mailbox, t.mailbox[|s.mailbox|], other);
      assert FromSender(t.mailbox, other) == FromSender(s.mailbox, other);
    }
  }

  /** Sending one command keeps the books. */
  lemma PostBalances(s: System, command: Command, reply: Reply)
    requires Balanced(s, reply)
    requires Carries(command, reply) == 1 ==> reply !in s.issued
    ensures Balanced(Post(s, command), reply)
  {
    if s.running {
      InMailboxAppend(s.mailbox, command, reply);
    }
  }

  lemma AnswersAreUses(log: seq<Effect>, reply: Reply)
    ensures |AnswersTo(log, reply)| <= |Project(log, UseOf(reply))|
  {
    if log != [] {
      AnswersAreUses(log[1..], reply);
    }
  }

  /** A reply channel not issued yet has been neither used nor parked. */
  lemma UnissuedIsUnused(s: System, reply: Reply)
    requires Balanced(s, reply) && reply !in s.issued
    ensures AnswersTo(s.log, reply) == [] && Parked(s.session, reply) == 0
  {
    AnswersAreUses(s.log, reply);
  }

  /** The whole invariant after one connection's action, from what that connection owes. */
  lemma TouchKeepsInv(content: Bytes, s: System, t: System, token: Token)
    requires Inv(content, s) && Touches(s, t, token)
    requires TokensFit(t) && IssuedFits(t)
    requires token in t.downloads ==> DownloadLogOk(content, t, token)
    requires s.running ==> AllTagged(t.mailbox) && TokenOk(content, t, token)
    requires s.running ==> forall reply: Reply :: Balanced(t, reply)
    ensures Inv(content, t)
  {
    hide TokenOk, Balanced;
    forall u | u in t.downloads ensures DownloadLogOk(content, t, u) {
      assert u != token ==> DownloadLogOk(content, s, u);
    }
    if s.running {
      forall u: Token ensures TokenOk(content, t, u) {
        if u != token {
          assert TokenOk(content, s, u);
          TouchKeepsOther(content, s, t, token, u);
        }
      }
    }
  }
}
