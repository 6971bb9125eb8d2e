// Reading a log of effects: what one stream, one request or one socket saw of it.

module Effects {
  import opened RelaySession

  /** Everything `f` reads off the log, in order. */
  function Project<T>(log: seq<Effect>, f: Effect -> seq<T>): seq<T> {
    if log == [] then [] else f(log[0]) + Project(log[1..], f)
  }

  lemma {:induction false} ProjectAppend<T>(a: seq<Effect>, b: seq<Effect>, f: Effect -> seq<T>)
    ensures Project(a + b, f) == Project(a, f) + Project(b, f)
  {
    if a == [] {
      assert a + b == b;
    } else {
      assert (a + b)[1..] == a[1..] + b;
      ProjectAppend(a[1..], b, f);
    }
  }

  lemma ProjectOne<T>(e: Effect, f: Effect -> seq<T>)
    ensures Project([e], f) == f(e)
  {
    assert Project([e], f) == f(e) + Project([], f);
  }

  function EventTo(token: Token): Effect -> seq<DownloadEvent> {
    (e: Effect) => if e.Event? && e.to == token then [e.event] else []
  }

  function AnswerTo(reply: Reply): Effect -> seq<UploadResult> {
    (e: Effect) => if e.Answer? && e.reply == reply then [e.result] else []
  }

  /** Every use of a reply channel: an answer of any kind, or its being dropped. */
  function UseOf(reply: Reply): Effect -> seq<Effect> {
    (e: Effect) => if Uses(e, reply) then [e] else []
  }

  predicate Uses(e: Effect, reply: Reply) {
    match e
    case Answer(r, _) => r == reply
    case Done(r) => r == reply
    case Described(r, _) => r == reply
    case Abandon(r) => r == reply
    case Event(_, _) => false
    case Socket(_, _, _) => false
  }

  function AckOf(): Effect -> seq<Position> {
    (e: Effect) => if e.Socket? && e.command.Ack? then [e.command.offset] else []
  }

  function FrameTo(direction: Direction): Effect -> seq<Frame> {
    (e: Effect) => if e.Socket? && e.direction == direction && e.command.Send? then [e.command.frame] else []
  }

  /** The chunk a downloader was handed, if this effect hands one over. */
  function ChunkOf(): Effect -> seq<Chunk> {
    (e: Effect) =>
      if !e.Event? then []
      else match e.event
        case More(d) => [Chunk.More(d)]
        case Final(d) => [Chunk.Final(d)]
        case ConnectionReplaced => []
  }

  /** The events one downloader's stream was sent. */
  function EventsTo(log: seq<Effect>, token: Token): seq<DownloadEvent> {
    Project(log, EventTo(token))
  }

  /** The answers one upload-side request was sent. */
  function AnswersTo(log: seq<Effect>, reply: Reply): seq<UploadResult> {
    Project(log, AnswerTo(reply))
  }

  /** The progress offsets sent to uploader websockets. */
  function Acks(log: seq<Effect>): seq<Position> {
    Project(log, AckOf())
  }

  /** The signalling frames handed to the websocket peers of one direction. */
  function FramesTo(log: seq<Effect>, direction: Direction): seq<Frame> {
    Project(log, FrameTo(direction))
  }

  /** The chunks handed to downloaders. */
  function ChunksOf(log: seq<Effect>): seq<Chunk> {
    Project(log, ChunkOf())
  }
}
