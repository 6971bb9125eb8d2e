// The relay's request handlers: how an upload request turns its body into chunks and its
// errors into responses, and how a download response reads its events.

module Api {
  import opened Base
  import opened RelaySession

  // ----- Uploads -----

  /** The chunks an upload sends for a body that arrives in these pieces: everything but the
      last piece is `More`, and an empty body is one empty `Final`. */
  function Chunked(pieces: seq<Bytes>): (chunks: seq<Chunk>)
    ensures chunks != []
  {
    if pieces == [] then [Chunk.Final([])]
    else if |pieces| == 1 then [Chunk.Final(pieces[0])]
    else [Chunk.More(pieces[0])] + Chunked(pieces[1..])
  }

  /** `chunk` is the content from `position` on, and is final only at the end of it. */
  predicate FitsAt(content: Bytes, position: Position, chunk: Chunk) {
    && position + chunk.Len() <= |content|
    && content[position..position + chunk.Len()] == chunk.data
    && (chunk.Final? ==> position + chunk.Len() == |content|)
  }

  /** Sent in order from `position`, these chunks are the rest of the content, and exactly
      the last of them is final. */
  predicate Plan(content: Bytes, position: Position, chunks: seq<Chunk>)
    decreases |chunks|
  {
    && chunks != []
    && FitsAt(content, position, chunks[0])
    && (chunks[0].Final? <==> |chunks| == 1)
    && (|chunks| > 1 ==> Plan(content, position + chunks[0].Len(), chunks[1..]))
  }

  /** However the body is cut up, its chunks are the rest of the content. */
  lemma {:induction false} ChunkedIsPlan(content: Bytes, position: Position, pieces: seq<Bytes>)
    requires position <= |content| && Concat(pieces) == content[position..]
    ensures Plan(content, position, Chunked(pieces))
    decreases |pieces|
  {
    if pieces == [] {
      assert content[position..] == [];
    } else if |pieces| == 1 {
      assert Concat(pieces[1..]) == [];
      assert pieces[0] == content[position..];
    } else {
      var next := position + |pieces[0]|;
      assert content[position..next] == pieces[0] && content[next..] == Concat(pieces[1..]) by {
        assert Concat(pieces) == pieces[0] + Concat(pieces[1..]);
        assert content[position..][..|pieces[0]|] == pieces[0];
        assert content[position..][|pieces[0]|..] == Concat(pieces[1..]);
      }
      ChunkedIsPlan(content, next, pieces[1..]);
      assert Chunked(pieces)[1..] == Chunked(pieces[1..]);
    }
  }

  /** The chunks' data, in order. */
  function DataOf(chunks: seq<Chunk>): Bytes {
    if chunks == [] then [] else chunks[0].data + DataOf(chunks[1..])
  }

  lemma {:induction false} ChunkedKeepsBody(pieces: seq<Bytes>)
    ensures DataOf(Chunked(pieces)) == Concat(pieces)
    ensures forall i :: 0 <= i < |Chunked(pieces)| ==> (Chunked(pieces)[i].Final? <==> i == |Chunked(pieces)| - 1)
  {
    if |pieces| > 1 {
      ChunkedKeepsBody(pieces[1..]);
      assert Chunked(pieces)[1..] == Chunked(pieces[1..]);
    } else if |pieces| == 1 {
      assert Chunked(pieces)[1..] == [] && pieces[1..] == [];
    }
  }

  /** The response to an upload request. */
  datatype Response = Ok | Conflict(position: Position) | Error(reason: string) | NotFoundStatus | BodyFailed

  function UploadErrorResponse(error: UploadError): Response {
    match error
    case NotFound => NotFoundStatus
    case Position(position) => Conflict(position)
    case Finished => Ok
    case ConnectionReplaced => Response.Error("connection_replaced")
    case DataPending => Response.Error("data_pending")
  }

  /** What a client learns from the response of a request that ended on this answer: that it is
      done, where it must go instead, or that the transfer is over, and why. */
  ghost predicate Tells(response: Response, last: UploadResult) {
    && (response == Ok <==> last == Accepted || last == Refused(UploadError.Finished))
    && (forall p: Position :: response == Conflict(p) <==> last == Refused(Position(p)))
    && (response == NotFoundStatus <==> last == Refused(NotFound))
    && (response == Response.Error("connection_replaced") <==> last == Refused(UploadError.ConnectionReplaced))
    && (response == Response.Error("data_pending") <==> last == Refused(DataPending))
    && response != BodyFailed
  }

  /** An error's response tells it, and ok tells of acceptance. */
  lemma ErrorTells(error: UploadError)
    ensures Tells(UploadErrorResponse(error), Refused(error)) && Tells(Ok, Accepted)
  {
  }

  /** What an upload request asks of its session. */
  datatype Call = CallStart(position: Position) | CallFlush | CallData(chunk: Chunk)

  /** Everything an upload request asks if it is never refused. */
  function UploadScript(position: Position, pieces: seq<Bytes>): seq<Call> {
    var chunks := Chunked(pieces);
    [CallStart(position), CallFlush] + seq(|chunks|, i requires 0 <= i < |chunks| => CallData(chunks[i]))
  }

  /** The session's answer to call `i`; a session that is gone answers not-found. */
  function AnswerAt(answers: seq<UploadResult>, i: nat): UploadResult {
    if i < |answers| then answers[i] else Refused(UploadError.NotFound)
  }

  lemma {:induction false} ChunkedAt(pieces: seq<Bytes>, i: nat)
    requires i < |pieces|
    ensures |Chunked(pieces)| == |pieces|
    ensures Chunked(pieces)[i] == if i == |pieces| - 1 then Chunk.Final(pieces[i]) else Chunk.More(pieces[i])
  {
    if |pieces| > 1 {
      assert Chunked(pieces)[1..] == Chunked(pieces[1..]);
      if i > 0 { ChunkedAt(pieces[1..], i - 1); } else { ChunkedAt(pieces[1..], 0); }
    }
  }

  lemma ChunkCount(pieces: seq<Bytes>)
    ensures |Chunked(pieces)| == if pieces == [] then 1 else |pieces|
    ensures pieces == [] ==> Chunked(pieces)[0] == Chunk.Final([])
  {
    if pieces != [] { ChunkedAt(pieces, 0); }
  }

  /** One upload request: it starts, flushes, and then sends its body with one piece of
      lookahead, making each call only once the previous one has been accepted. The body is
      `pieces`, after which reading it either ends or, with `fails`, breaks; a broken body
      never sends its final chunk. */
  method Upload(position: Position, pieces: seq<Bytes>, fails: bool, answers: seq<UploadResult>)
    returns (calls: seq<Call>, response: Response)
    ensures calls != [] && calls <= UploadScript(position, pieces)
    ensures forall i :: 0 <= i < |calls| - 1 ==> AnswerAt(answers, i).Accepted?
    ensures
      var last := AnswerAt(answers, |calls| - 1);
      match last
      case Refused(error) => response == UploadErrorResponse(error)
      case Accepted => if fails then response == BodyFailed && |calls| == |UploadScript(position, pieces)| - 1
                       else response == Ok && calls == UploadScript(position, pieces)
    ensures fails ==> |calls| < |UploadScript(position, pieces)|
    ensures
      var last := AnswerAt(answers, |calls| - 1);
      if last.Accepted? && fails then response == BodyFailed else Tells(response, last)
  {
    hide Tells, Chunked, UploadErrorResponse;
    forall error ensures Tells(UploadErrorResponse(error), Refused(error)) { ErrorTells(error); }
    ErrorTells(UploadError.NotFound);
    ChunkCount(pieces);
    ghost var script := UploadScript(position, pieces);
    calls := [CallStart(position)];
    var answer := AnswerAt(answers, 0);
    if answer.Refused? {
      return calls, UploadErrorResponse(answer.error);
    }
    calls := calls + [CallFlush];
    assert calls == script[..2];
    answer := AnswerAt(answers, 1);
    if answer.Refused? {
      return calls, UploadErrorResponse(answer.error);
    }

    var read := 0;
    var next: Option<Bytes> := None;
    if pieces != [] {
      next, read := Some(pieces[0]), 1;
    } else if fails {
      return calls, BodyFailed;
    }
    while true
      invariant |calls| >= 2 && calls <= script
      invariant forall i :: 0 <= i < |calls| ==> AnswerAt(answers, i).Accepted?
      invariant read <= |pieces|
      invariant if next.Some? then read >= 1 && next.value == pieces[read - 1] && |calls| == read + 1
                else pieces == [] && !fails && |calls| == 2
      decreases |pieces| - read
    {
      var data := if next.Some? then next.value else [];
      if read < |pieces| {
        next, read := Some(pieces[read]), read + 1;
      } else if fails {
        ChunkedAt(pieces, 0);
        return calls, BodyFailed;
      } else {
        next := None;
      }
      var last := next.None?;
      var chunk := if last then Chunk.Final(data) else Chunk.More(data);
      if pieces != [] { ChunkedAt(pieces, |calls| - 2); }
      assert script[|calls|] == CallData(chunk);
      calls := calls + [CallData(chunk)];
      answer := AnswerAt(answers, |calls| - 1);
      if answer.Refused? {
        return calls, UploadErrorResponse(answer.error);
      }
      if last {
        return calls, Ok;
      }
    }
  }

  // ----- Downloads -----

  /** The bytes carried by a downloader's events. */
  function Carried(events: seq<DownloadEvent>): Bytes {
    if events == [] then []
    else (if events[0].ConnectionReplaced? then [] else events[0].data) + Carried(events[1..])
  }

  datatype Polled = Item(data: Bytes) | Ended | Waiting

  /** What a body makes of its next event: its bytes, or its end. */
  function Polling(event: DownloadEvent): Polled {
    match event
    case More(data) => Item(data)
    case Final(data) => Item(data)
    case ConnectionReplaced => Ended
  }

  /** The events a body gets to hear: up to its final chunk, or to its being replaced. */
  function Heard(events: seq<DownloadEvent>): seq<DownloadEvent> {
    if events == [] || Polling(events[0]).Ended? then []
    else [events[0]] + if events[0].Final? then [] else Heard(events[1..])
  }

  /** The last thing heard is a final chunk. */
  predicate Completes(events: seq<DownloadEvent>) {
    Heard(events) != [] && Heard(events)[|Heard(events)| - 1].Final?
  }

  lemma {:induction false} HeardIsPrefix(events: seq<DownloadEvent>)
    ensures |Heard(events)| <= |events| && Heard(events) == events[..|Heard(events)|]
    decreases |events|
  {
    if Heard(events) != [] && !events[0].Final? {
      HeardIsPrefix(events[1..]);
    }
  }

  lemma NothingHeard(events: seq<DownloadEvent>)
    ensures events == [] || Polling(events[0]).Ended? ==> Heard(events) == [] && !Completes(events)
    ensures Carried([]) == []
    ensures events == [] ==> Heard(events) == events
    ensures events != [] && Polling(events[0]).Ended? ==> Heard(events) != events
  {
  }

  /** A body hears everything up to the first final chunk, which it hears, or replacement, which
      it does not; with neither, it hears it all. */
  lemma {:induction false} HeardUpTo(events: seq<DownloadEvent>, n: nat)
    requires n <= |events| && forall i :: 0 <= i < n ==> events[i].More?
    ensures n == |events| ==> Heard(events) == events && !Completes(events)
    ensures n < |events| && events[n].Final? ==> Heard(events) == events[..n + 1] && Completes(events)
    ensures n < |events| && events[n].ConnectionReplaced? ==> Heard(events) == events[..n] && !Completes(events)
    decreases n
  {
    if n == 0 {
      assert events == [] || events[..1] == [events[0]];
    } else {
      HeardUpTo(events[1..], n - 1);
      assert events == [events[0]] + events[1..];
      if n < |events| {
        assert events[..n + 1] == [events[0]] + events[1..][..n];
        assert events[..n] == [events[0]] + events[1..][..n - 1];
      }
    }
  }

  lemma CarriedNext(event: DownloadEvent, rest: seq<DownloadEvent>)
    requires !event.ConnectionReplaced?
    ensures Carried([event] + rest) == event.data + Carried(rest)
  {
    assert ([event] + rest)[1..] == rest;
  }

  /** What one more event, heard first, adds. */
  lemma HeardNext(events: seq<DownloadEvent>)
    requires events != [] && !Polling(events[0]).Ended?
    ensures events[0].Final? ==> Carried(Heard(events)) == events[0].data && Completes(events)
    ensures !events[0].Final? ==>
      && Carried(Heard(events)) == events[0].data + Carried(Heard(events[1..]))
      && (Completes(events) <==> Completes(events[1..]))
      && (Heard(events) == events <==> Heard(events[1..]) == events[1..])
  {
    hide Carried;
    var rest := if events[0].Final? then [] else Heard(events[1..]);
    assert Heard(events) == [events[0]] + rest;
    CarriedNext(events[0], rest);
    NothingHeard([]);
    assert events == [events[0]] + events[1..];
  }

  /** The body of one download response, reading its event channel. */
  class DownloadStream {
    const token: Token
    var events: seq<DownloadEvent>
    var closed: bool
    var completed: bool
    var ended: bool

    constructor (token: Token)
      ensures this.token == token && events == [] && !closed && !completed && !ended
    {
      this.token := token;
      events, closed, completed, ended := [], false, false, false;
    }

    /** One poll of the body. It waits on an empty channel until the session has gone. */
    method Next() returns (polled: Polled)
      requires !ended
      modifies this`events, this`completed, this`ended
      ensures old(completed) ==> polled == Ended && ended && events == old(events) && completed
      ensures !old(completed) && old(events) == [] ==>
        polled == (if closed then Ended else Waiting) && ended == closed && events == [] && !completed
      ensures !old(completed) && old(events) != [] ==>
        && events == old(events)[1..] && polled == Polling(old(events)[0])
        && ended == polled.Ended? && completed == old(events)[0].Final?
    {
      if completed {
        ended := true;
        return Ended;
      }
      if events == [] {
        ended := closed;
        return if closed then Ended else Waiting;
      }
      var event := events[0];
      events := events[1..];
      match event
      case More(data) => polled := Item(data);
      case Final(data) =>
        completed := true;
        polled := Item(data);
      case ConnectionReplaced =>
        ended := true;
        polled := Ended;
    }

    /** `body` and what is left to hear are all that was to be heard. */
    ghost predicate Towards(body: Bytes, all: seq<DownloadEvent>)
      reads this
    {
      if completed then body == Carried(Heard(all)) && Completes(all)
      else
        && body + Carried(Heard(events)) == Carried(Heard(all))
        && (Completes(events) <==> Completes(all))
        && (Heard(events) == events <==> Heard(all) == all)
    }

    /** There is nothing more to hear for now, or ever. */
    ghost predicate HeardAll(body: Bytes, last: Polled, all: seq<DownloadEvent>)
      reads this
    {
      && body == Carried(Heard(all))
      && (completed <==> Completes(all))
      && (last.Waiting? <==> !closed && Heard(all) == all && !Completes(all))
    }

    /** One poll, added to the body. */
    method PollOnto(body: Bytes, ghost all: seq<DownloadEvent>) returns (more: Bytes, last: Polled)
      requires !ended && Towards(body, all)
      modifies this`events, this`completed, this`ended
      ensures ended <==> last.Ended?
      ensures last.Item? ==> Towards(more, all) && |events| < |old(events)|
      ensures !last.Item? ==> HeardAll(more, last, all) && |events| <= |old(events)|
    {
      hide Carried, Heard, Completes;
      NothingHeard(events);
      if events != [] && !completed && !Polling(events[0]).Ended? { HeardNext(events); }
      last := Next();
      NothingHeard(events);
      more := if last.Item? then body + last.data else body;
    }

    /** Polls until the body ends, or has to wait for a session that goes on. The body is what
        it heard, and it counts as completed exactly if that ended in a final chunk. */
    method ReadAll() returns (body: Bytes, last: Polled)
      requires !ended && !completed
      modifies this`events, this`completed, this`ended
      ensures body == Carried(Heard(old(events)))
      ensures completed <==> Completes(old(events))
      ensures last.Ended? || last.Waiting?
      ensures ended <==> last.Ended?
      ensures last.Waiting? <==> !closed && Heard(old(events)) == old(events) && !Completes(old(events))
    {
      ghost var all := events;
      body := [];
      last := Item([]);
      while last.Item?
        invariant if last.Item? then Towards(body, all) else HeardAll(body, last, all)
        invariant ended <==> last.Ended?
        decreases |events| + if last.Item? then 1 else 0
      {
        body, last := PollOnto(body, all);
      }
    }

    /** What dropping the response tells the session. */
    method Drop() returns (command: Command)
      ensures command == Command.Disconnected(token, Downloader(completed))
    {
      command := Command.Disconnected(token, Downloader(completed));
    }
  }
}
