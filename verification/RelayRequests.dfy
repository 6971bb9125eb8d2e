// Requests that are one command: each joins the end of the mailbox, and what serving it does
// for its client.

module RelayRequests {
  import opened Base
  import opened RelaySession
  import opened SessionInvariant
  import opened SessionLaws
  import opened RelaySystem
  import opened RelayInvariant
  import opened RelayTheorems
  import opened RelayUploads
  import opened RelayProgress
  import opened RelayTokens
  import Range

  /** The command an action sends, when it is a request of a single command. */
  ghost function Sends(s: System, action: Action): Option<Command> {
    match action
    case GetContent(range) =>
      (match Range.DownloadPositionOf(range)
       case Success(Eof) => Some(FinishDownload(Reply(s.nextToken, 0)))
       case _ => None)
    case PostStart(position) => Some(CheckStartUpload(position, Reply(s.nextToken, 0)))
    case GetMetadata => Some(Metadata(Reply(s.nextToken, 0)))
    case OpenSocket(direction) => Some(StartWebsocket(direction, s.nextToken, Reply(s.nextToken, 0)))
    case SocketFrame(token, frame) =>
      if token in s.sockets then Some(WebsocketData(s.sockets[token], frame)) else None
    case CloseSocket(token) =>
      if token in s.sockets then Some(Command.Disconnected(token, Websocket(s.sockets[token]))) else None
    case _ => None
  }

  lemma RequestIsPosted(content: Bytes, s: System, action: Action)
    requires s.running && Sends(s, action).Some?
    ensures
      var t := Apply(content, s, action);
      t.mailbox == s.mailbox + [Sends(s, action).value] && t.session == s.session && t.log == s.log && t.running
  {
    hide Range.DownloadPositionOf;
  }

  /** Serving the commands in front of the last one. */
  lemma {:induction false} LastComesNext(content: Bytes, s: System, n: nat, last: Command)
    requires s.running && |s.mailbox| == n + 1 && s.mailbox[n] == last
    ensures Exec(content, s, Serves(n)).running ==> Exec(content, s, Serves(n)).mailbox == [last]
    ensures Exec(content, s, Serves(n)).session.metadata == s.session.metadata
    decreases n
  {
    hide Step;
    if n == 0 {
      assert s.mailbox == [last];
    } else {
      var next := Apply(content, s, Serve);
      ApplyServe(content, s);
      StepDescribes(s.session, s.mailbox[0], Reply(0, 0), "");
      assert Serves(n)[1..] == Serves(n - 1);
      if next.running {
        LastComesNext(content, next, n - 1, last);
      } else {
        StoppedServesNothing(content, next, Serves(n - 1));
      }
    }
  }

  /** Whatever is in front of it, a request is served, unless the session has ended by then, and
      served as what it asked for. */
  lemma RequestIsServed(content: Bytes, s: System, action: Action)
    requires s.running && Sends(s, action).Some?
    ensures
      var waiting := Exec(content, Apply(content, s, action), Serves(|s.mailbox|));
      var outcome := Step(waiting.session, Sends(s, action).value);
      var t := Apply(content, waiting, Serve);
      && waiting.session.metadata == s.session.metadata
      && (waiting.running ==>
            && t.session == outcome.state && t.log == waiting.log + outcome.effects && t.running == !outcome.stop)
  {
    hide Apply, Exec, Step, Sends;
    RequestIsPosted(content, s, action);
    var posted := Apply(content, s, action);
    LastComesNext(content, posted, |s.mailbox|, Sends(s, action).value);
    ApplyServe(content, Exec(content, posted, Serves(|s.mailbox|)));
  }

  /** A download request for the end of the file is answered, and ends the session exactly if
      that leaves no uploader. */
  lemma FinishIsServed(content: Bytes, s: System, range: Option<string>)
    requires |content| < U64_LIMIT && Reachable(content, s) && s.running
    requires Range.DownloadPositionOf(range) == Success(Range.Eof)
    ensures
      var waiting := Exec(content, Apply(content, s, GetContent(range)), Serves(|s.mailbox|));
      var t := Apply(content, waiting, Serve);
      waiting.running ==>
        && Done(Reply(s.nextToken, 0)) in t.log
        && (!t.running <==> t.session.uploader.None?)
        && (!t.running <==> waiting.session.uploader.None? || waiting.session.pending.Data?)
        && t.session.downloader.Finished?
  {
    hide Apply, Exec, Reachable, Inv, Step, Range.DownloadPositionOf;
    var reply := Reply(s.nextToken, 0);
    var waiting := Exec(content, Apply(content, s, GetContent(range)), Serves(|s.mailbox|));
    RequestIsServed(content, s, GetContent(range));
    ReachableIsInv(content, s);
    ApplyKeepsInv(content, s, GetContent(range));
    ExecKeepsInv(content, Apply(content, s, GetContent(range)), Serves(|s.mailbox|));
    if waiting.running {
      RunningConsistent(content, waiting);
      FinishIsAnswered(waiting.session, reply);
    }
  }

  lemma RunningConsistent(content: Bytes, s: System)
    requires Inv(content, s) && s.running
    ensures Consistent(s.session)
  {
  }

  lemma {:induction false} MetadataStays(content: Bytes, s: System, actions: seq<Action>)
    ensures Exec(content, s, actions).session.metadata == s.session.metadata
    decreases |actions|
  {
    hide Apply, Step;
    if actions != [] {
      ApplyServes(content, s, actions[0]);
      if ServedBy(s, actions[0]) != [] { StepDescribes(s.session, s.mailbox[0], Reply(0, 0), ""); }
      MetadataStays(content, Apply(content, s, actions[0]), actions[1..]);
    }
  }

  /** A client that asks is given the metadata the session was created with, at any time. */
  lemma MetadataIsServed(content: Bytes, metadata: string, actions: seq<Action>)
    ensures
      var s := Exec(content, Start(metadata), actions);
      var waiting := Exec(content, Apply(content, s, GetMetadata), Serves(|s.mailbox|));
      s.running && waiting.running ==>
        Described(Reply(s.nextToken, 0), metadata) in Apply(content, waiting, Serve).log
  {
    hide Apply, Exec, Step;
    var s := Exec(content, Start(metadata), actions);
    MetadataStays(content, Start(metadata), actions);
    if s.running {
      var waiting := Exec(content, Apply(content, s, GetMetadata), Serves(|s.mailbox|));
      RequestIsServed(content, s, GetMetadata);
      StepDescribes(waiting.session, Metadata(Reply(s.nextToken, 0)), Reply(s.nextToken, 0), metadata);
    }
  }

  /** A websocket that opens is its side's, from when it is served, and is sent what was held. */
  lemma SocketOpens(content: Bytes, s: System, direction: Direction)
    requires s.running
    ensures
      var waiting := Exec(content, Apply(content, s, OpenSocket(direction)), Serves(|s.mailbox|));
      var t := Apply(content, waiting, Serve);
      && s.nextToken in Apply(content, s, OpenSocket(direction)).sockets
      && (waiting.running ==>
            && t.running && t.session.Ws(direction) == Some(s.nextToken) && t.session.Held(direction) == []
            && SendAll(direction, s.nextToken, waiting.session.Held(direction)) <= t.log[|waiting.log|..])
  {
    hide Exec, SendAll;
    RequestIsServed(content, s, OpenSocket(direction));
    var waiting := Exec(content, Apply(content, s, OpenSocket(direction)), Serves(|s.mailbox|));
    SocketAfter(waiting.session, Sends(s, OpenSocket(direction)).value, direction);
  }

  /** A frame goes to the other side's websocket, or joins those held for it. */
  lemma FrameIsRelayed(content: Bytes, s: System, token: Token, frame: Frame, to: Direction)
    requires s.running && token in s.sockets && to != s.sockets[token]
    ensures
      var waiting := Exec(content, Apply(content, s, SocketFrame(token, frame)), Serves(|s.mailbox|));
      var t := Apply(content, waiting, Serve);
      waiting.running ==>
        if waiting.session.Ws(to).Some? then
          t.log == waiting.log + [Socket(to, waiting.session.Ws(to).value, Send(frame))]
        else
          && t.log == waiting.log
          && t.session.Held(to) == waiting.session.Held(to) + if |waiting.session.Held(to)| == 64 then [] else [frame]
  {
    hide Exec, Apply;
    RequestIsServed(content, s, SocketFrame(token, frame));
  }

  /** A websocket that closes is nobody's any more. */
  lemma SocketCloses(content: Bytes, s: System, token: Token)
    requires s.running && token in s.sockets
    ensures
      var waiting := Exec(content, Apply(content, s, CloseSocket(token)), Serves(|s.mailbox|));
      var t := Apply(content, waiting, Serve);
      && token !in Apply(content, s, CloseSocket(token)).sockets
      && (waiting.running ==> t.running && t.session.Ws(s.sockets[token]) != Some(token))
  {
    hide Exec;
    RequestIsServed(content, s, CloseSocket(token));
    var waiting := Exec(content, Apply(content, s, CloseSocket(token)), Serves(|s.mailbox|));
    SocketAfter(waiting.session, Sends(s, CloseSocket(token)).value, s.sockets[token]);
  }
}
