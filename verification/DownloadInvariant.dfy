// What holds of one download request: what its event channel carries is the content from
// where it asked, without a gap, a repeat or a byte out of order.

module DownloadInvariant {
  import opened Base
  import opened RelaySession
  import opened SessionSteps
  import opened SessionInvariant
  import opened Api
  import opened RelaySystem

  /** The chunk an event carries. */
  function ChunkIn(event: DownloadEvent): Chunk
    requires !event.ConnectionReplaced?
  {
    match event
    case More(d) => Chunk.More(d)
    case Final(d) => Chunk.Final(d)
  }

  /** Events that carry the content from `position` on; nothing follows a replacement. */
  predicate Follows(content: Bytes, position: Position, events: seq<DownloadEvent>)
    decreases |events|
  {
    if events == [] then true
    else if events[0].ConnectionReplaced? then |events| == 1
    else
      && FitsAt(content, position, ChunkIn(events[0]))
      && Follows(content, position + |events[0].data|, events[1..])
  }

  /** The stream has not been told it was replaced. */
  predicate Open(events: seq<DownloadEvent>) {
    forall i :: 0 <= i < |events| ==> !events[i].ConnectionReplaced?
  }

  lemma {:induction false} FollowsAppend(content: Bytes, position: Position, events: seq<DownloadEvent>,
                                         event: DownloadEvent)
    requires Follows(content, position, events) && Open(events)
    requires !event.ConnectionReplaced? ==> FitsAt(content, position + |Carried(events)|, ChunkIn(event))
    ensures Follows(content, position, events + [event])
    ensures |Carried(events + [event])|
         == |Carried(events)| + if event.ConnectionReplaced? then 0 else |event.data|
    decreases |events|
  {
    if events == [] {
      assert events + [event] == [event];
      assert [event][1..] == [];
    } else {
      assert (events + [event])[1..] == events[1..] + [event];
      assert !events[0].ConnectionReplaced?;
      hide FitsAt;
      FollowsAppend(content, position + |events[0].data|, events[1..], event);
    }
  }

  /** What events that follow the content carry is a stretch of it. */
  lemma {:induction false} FollowsCarries(content: Bytes, position: Position, events: seq<DownloadEvent>)
    requires Follows(content, position, events) && position <= |content|
    ensures position + |Carried(events)| <= |content|
    ensures Carried(events) == content[position..position + |Carried(events)|]
    decreases |events|
  {
    hide Follows;
    if events != [] {
      FollowsHead(content, position, events);
      if !events[0].ConnectionReplaced? {
        var next := position + |events[0].data|;
        FollowsCarries(content, next, events[1..]);
        SlicesJoin(content, position, next, next + |Carried(events[1..])|);
      }
    }
  }

  /** The first event is the end of the stream, or the next stretch of the content. */
  lemma FollowsHead(content: Bytes, position: Position, events: seq<DownloadEvent>)
    requires Follows(content, position, events) && events != []
    ensures events[0].ConnectionReplaced? ==> events[1..] == []
    ensures !events[0].ConnectionReplaced? ==>
      var next := position + |events[0].data|;
      next <= |content| && content[position..next] == events[0].data && Follows(content, next, events[1..])
  {
  }

  /** A stream that asked for a place past the end is given no bytes. */
  lemma {:induction false} FollowsPastEnd(content: Bytes, position: Position, events: seq<DownloadEvent>)
    requires Follows(content, position, events) && position > |content|
    ensures Carried(events) == []
  {
    if events != [] {
      assert events[0].ConnectionReplaced?;
      assert events[1..] == [];
    }
  }

  lemma {:induction false} FollowsPrefix(content: Bytes, position: Position, events: seq<DownloadEvent>, n: nat)
    requires Follows(content, position, events) && n <= |events|
    ensures Follows(content, position, events[..n])
    decreases |events|
  {
    if n > 0 {
      assert events[..n][1..] == events[1..][..n - 1];
      if !events[0].ConnectionReplaced? {
        FollowsPrefix(content, position + |events[0].data|, events[1..], n - 1);
      }
    }
  }

  /** Up to and including a final event, a stream carries the content to its very end. */
  lemma {:induction false} FinalReachesEnd(content: Bytes, position: Position, events: seq<DownloadEvent>, n: nat)
    requires Follows(content, position, events) && n < |events| && events[n].Final?
    ensures position <= |content| && Carried(events[..n + 1]) == content[position..]
    decreases |events|
  {
    assert events[..n + 1][1..] == events[1..][..n];
    assert !events[0].ConnectionReplaced?;
    var next := position + |events[0].data|;
    if n == 0 {
      assert Carried([]) == [];
      assert events[..1][1..] == [];
    } else {
      FinalReachesEnd(content, next, events[1..], n - 1);
      assert content[position..] == content[position..next] + content[next..];
    }
  }

  predicate QueueFits(token: Token, d: DownloadHandler, queue: seq<Command>) {
    || queue == []
    || queue == [StartDownload(token, d.start, Reply(token, 0))]
    || (d.phase.Closed? && queue == [Command.Disconnected(token, Downloader(d.completed))])
  }

  /** The request has not reached the session yet. */
  predicate Unstarted(queue: seq<Command>) {
    queue != [] && queue[0].StartDownload?
  }

  /** `queue` is what the mailbox holds of this request's, and `events` everything its event
      channel has been sent. */
  predicate DownloadOk(content: Bytes, token: Token, d: DownloadHandler, queue: seq<Command>, s: Session,
                       events: seq<DownloadEvent>)
  {
    && QueueFits(token, d, queue)
    && !s.IsUploader(token)
    && Follows(content, d.start, events)
    && (Unstarted(queue) ==>
          events == [] && !s.IsDownloader(token) && !d.phase.Streaming? && !d.phase.Closed?)
    && (s.IsDownloader(token) ==> Open(events) && s.downloader.position == d.start + |Carried(events)|)
    && (!d.phase.Over() && !Unstarted(queue) ==> s.IsDownloader(token) || !Open(events))
    && (d.phase.Closed? && queue == [] ==> !s.IsDownloader(token))
    && d.taken <= |events|
    && (d.completed ==> 0 < d.taken && events[d.taken - 1].Final?)
  }

  /** A chunk handed to this stream belongs where the stream is. */
  predicate HandedFits(content: Bytes, token: Token, s: Session, command: Command, position: Position) {
    Handed(s, command).Some? && Handed(s, command).value.0 == token ==>
      FitsAt(content, position, Handed(s, command).value.1)
  }

  lemma OwnStartKeeps(content: Bytes, token: Token, d: DownloadHandler, queue: seq<Command>, s: Session)
    requires Consistent(s) && DownloadOk(content, token, d, queue, s, [])
    requires Unstarted(queue)
    requires HandedFits(content, token, s, queue[0], d.start)
    ensures DownloadOk(content, token, d, queue[1..], Step(s, queue[0]).state, Delivers(s, queue[0], token))
  {
    var start := queue[0];
    var events := Delivers(s, start, token);
    if Handed(s, start).Some? {
      assert events == [] + [Handed(s, start).value.1.IntoEvent()];
      FollowsAppend(content, d.start, [], Handed(s, start).value.1.IntoEvent());
    } else {
      assert events == [];
    }
  }

  lemma OwnGoodbyeKeeps(content: Bytes, token: Token, d: DownloadHandler, queue: seq<Command>, s: Session,
                        events: seq<DownloadEvent>)
    requires DownloadOk(content, token, d, queue, s, events)
    requires queue != [] && !Unstarted(queue)
    ensures DownloadOk(content, token, d, queue[1..], Step(s, queue[0]).state, events + Delivers(s, queue[0], token))
  {
    assert events + Delivers(s, queue[0], token) == events;
  }

  /** Somebody else's command. */
  lemma ServingOtherKeeps(content: Bytes, token: Token, d: DownloadHandler, queue: seq<Command>, s: Session,
                          events: seq<DownloadEvent>, command: Command)
    requires Consistent(s) && DownloadOk(content, token, d, queue, s, events)
    requires Tagged(command) && Sender(command) != Some(token)
    requires s.IsDownloader(token) ==> HandedFits(content, token, s, command, s.downloader.position)
    ensures DownloadOk(content, token, d, queue, Step(s, command).state, events + Delivers(s, command, token))
  {
    hide Step, Consistent, FitsAt, Follows, Carried;
    var after := events + Delivers(s, command, token);
    StepKeepsUploaderGone(s, command, token);
    if s.IsDownloader(token) {
      if Displaced(s, command).Some? {
        assert after == events + [DownloadEvent.ConnectionReplaced];
        assert after[|events|].ConnectionReplaced?;
        FollowsAppend(content, d.start, events, DownloadEvent.ConnectionReplaced);
        StepDisplaces(s, command, token);
      } else if Handed(s, command).Some? {
        assert after == events + [Handed(s, command).value.1.IntoEvent()];
        FollowsAppend(content, d.start, events, Handed(s, command).value.1.IntoEvent());
        StepMovesDownloader(s, command, token);
      } else {
        assert after == events;
        StepMovesDownloader(s, command, token);
      }
    } else {
      assert after == events;
      StepDownloader(s, command, token);
    }
  }

  lemma StepDisplaces(s: Session, command: Command, token: Token)
    requires s.IsDownloader(token) && Displaced(s, command).Some? && !(command.StartDownload? && command.token == token)
    ensures !Step(s, command).state.IsDownloader(token)
  {
  }

  lemma StepDownloader(s: Session, command: Command, token: Token)
    requires !s.IsDownloader(token) && !(command.StartDownload? && command.token == token)
    ensures !Step(s, command).state.IsDownloader(token)
  {
  }

  /** A connected downloader moves by exactly what it is handed. */
  lemma StepMovesDownloader(s: Session, command: Command, token: Token)
    requires Consistent(s) && s.IsDownloader(token) && Displaced(s, command).None?
    ensures
      var after := Step(s, command).state;
      (Sender(command) != Some(token) ==> after.IsDownloader(token))
      && (after.IsDownloader(token) ==>
        after.downloader.position == s.downloader.position
          + if Handed(s, command).Some? then Handed(s, command).value.1.Len() else 0)
  {
  }
}
