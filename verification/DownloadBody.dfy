// The download requests of the relay system are the response bodies of `Api`: polling one is
// a step of the other, and a body read to its end tells its session the truth.

module DownloadBody {
  import opened Base
  import opened RelaySession
  import opened Effects
  import opened Api
  import opened RelaySystem
  import DI = DownloadInvariant
  import opened RelayInvariant
  import opened RelayTheorems
  import Range

  /** The body has read exactly as far as the request's record says. */
  ghost predicate Reads(stream: DownloadStream, s: System, token: Token)
    reads stream
  {
    && token in s.downloads && s.downloads[token].phase.Streaming?
    && stream.token == token && !stream.ended && stream.closed == !s.running
    && stream.completed == s.downloads[token].completed
    && s.downloads[token].taken <= |EventsTo(s.log, token)|
    && stream.events == EventsTo(s.log, token)[s.downloads[token].taken..]
  }

  /** Polling a body once, and dropping it at its end, is what the relay system does with the
      request's record. */
  method Poll(stream: DownloadStream, ghost content: Bytes, ghost s: System, ghost token: Token)
    returns (polled: Polled, goodbye: Option<Command>)
    requires Reads(stream, s, token)
    modifies stream
    ensures polled.Item? ==> goodbye.None? && Reads(stream, Apply(content, s, DownloadPolled(token)), token)
    ensures polled.Waiting? ==>
      goodbye.None? && Reads(stream, s, token) && Apply(content, s, DownloadPolled(token)) == s
    ensures polled.Ended? ==>
      var d := s.downloads[token];
      && goodbye.Some?
      && Apply(content, s, DownloadDropped(token))
         == Post(s.(downloads := s.downloads[token := d.(phase := Closed)]), goodbye.value)
      && (!d.completed && d.taken < |EventsTo(s.log, token)| ==>
            Apply(content, s, DownloadPolled(token)) == Apply(content, s, DownloadDropped(token)))
  {
    hide EventsTo, Range.UploadPositionOf, Range.DownloadPositionOf, OnUploadAnswer, OnServe;
    ghost var events, taken := EventsTo(s.log, token), s.downloads[token].taken;
    polled := stream.Next();
    goodbye := None;
    if polled.Item? {
      assert events[taken..][1..] == events[taken + 1..];
    } else if polled.Ended? {
      var farewell := stream.Drop();
      goodbye := Some(farewell);
    }
  }

  /** What a body hears of events that follow the content. */
  lemma HeardFollows(content: Bytes, start: Position, events: seq<DownloadEvent>)
    requires DI.Follows(content, start, events)
    ensures StretchOf(content, start, Carried(Heard(events)))
    ensures Completes(events) ==> start <= |content| && Carried(Heard(events)) == content[start..]
  {
    hide DI.Follows, Heard, Carried;
    var heard := Heard(events);
    HeardIsPrefix(events);
    DI.FollowsPrefix(content, start, events, |heard|);
    FollowsIsStretch(content, start, heard);
    if Completes(events) {
      DI.FinalReachesEnd(content, start, events, |heard| - 1);
    }
  }

  /** A body that reads all it was ever sent, over any run of the relay: it is the content from
      where it asked, and it says that it completed only when that is all of the rest. */
  method ReadBody(stream: DownloadStream, ghost content: Bytes, ghost s: System)
    returns (body: Bytes, goodbye: Option<Command>)
    requires |content| < U64_LIMIT && Reachable(content, s) && stream.token in s.downloads
    requires stream.events == EventsTo(s.log, stream.token) && !stream.completed && !stream.ended
    modifies stream
    ensures StretchOf(content, s.downloads[stream.token].start, body)
    ensures body == Carried(Heard(EventsTo(s.log, stream.token)))
    ensures goodbye.Some? <==> stream.ended
    ensures goodbye.Some? ==>
      var completed, start := Completes(EventsTo(s.log, stream.token)), s.downloads[stream.token].start;
      && goodbye.value == Command.Disconnected(stream.token, Downloader(completed))
      && (completed ==> start <= |content| && body == content[start..])
  {
    hide Exec, Reachable, Running, EventsTo, Heard, Carried, Completes, DI.Follows;
    ReachableIsInv(content, s);
    assert DownloadLogOk(content, s, stream.token);
    HeardFollows(content, s.downloads[stream.token].start, EventsTo(s.log, stream.token));
    var last;
    body, last := stream.ReadAll();
    goodbye := None;
    if last.Ended? {
      var farewell := stream.Drop();
      goodbye := Some(farewell);
    }
  }
}
