// The peer-to-peer transfer: a downloader keeps a window of data requests in flight over an
// ordered channel to an uploader that answers each from its encrypted file.

module Window {
  import opened Base

  /** The longest piece asked for at once. */
  const CHUNK_SIZE: nat := 16 * 1024

  /** The most that may be asked for and not yet received. */
  const MAX_INFLIGHT: nat := 10 * 1024 * 1024

  datatype DataRequest = DataRequest(offset: nat, len: nat)

  datatype DownloaderMessage = DownloaderHello | Ask(request: DataRequest) | TransferFinished | UnknownToUploader

  datatype UploaderMessage = UploaderHello | DataResponse(offset: nat, data: Bytes) | UnknownToDownloader

  /** How far the loop asks: to the end of the window or of the file. */
  function Horizon(received: nat, total: nat): nat {
    Min(received + MAX_INFLIGHT, total)
  }

  /** The next request to send, if the window has room and there is something left to ask. */
  function NextDataRequest(received: nat, requested: nat, total: nat): (next: Option<DataRequest>)
    requires received <= requested <= total
    ensures next.Some? <==> requested < Horizon(received, total)
    ensures next.Some? ==>
      && next.value.offset == requested && 0 < next.value.len <= CHUNK_SIZE
      && requested + next.value.len <= Horizon(received, total)
      && (next.value.len == 16 * 1024 || requested + next.value.len == Min(received + 10 * 1024 * 1024, total))
  {
    var inflight := requested - received;
    var room := if inflight <= MAX_INFLIGHT then MAX_INFLIGHT - inflight else 0;
    var len := Min(Min(room, total - requested), CHUNK_SIZE);
    if len != 0 then Some(DataRequest(requested, len)) else None
  }

  /** Every request the loop sends. */
  function Requests(received: nat, requested: nat, total: nat): seq<DataRequest>
    requires received <= requested <= total
    decreases total - requested
  {
    match NextDataRequest(received, requested, total)
    case None => []
    case Some(next) => [next] + Requests(received, requested + next.len, total)
  }

  /** Requests that cover `[from, to)`, end to end, with non-empty pieces of bounded length. */
  predicate Tiles(from: nat, spans: seq<DataRequest>, to: nat)
    decreases |spans|
  {
    if spans == [] then from == to
    else
      && spans[0].offset == from && 0 < spans[0].len <= CHUNK_SIZE
      && Tiles(from + spans[0].len, spans[1..], to)
  }

  lemma {:induction false} TilesAppend(from: nat, a: seq<DataRequest>, mid: nat, b: seq<DataRequest>, to: nat)
    requires Tiles(from, a, mid) && Tiles(mid, b, to)
    ensures Tiles(from, a + b, to)
    decreases |a|
  {
    if a == [] {
      assert a + b == b;
    } else {
      assert (a + b)[1..] == a[1..] + b;
      TilesAppend(from + a[0].len, a[1..], mid, b, to);
    }
  }

  lemma {:induction false} TilesUp(from: nat, spans: seq<DataRequest>, to: nat)
    requires Tiles(from, spans, to)
    ensures from <= to && (spans == [] <==> from == to)
    decreases |spans|
  {
    if spans != [] {
      TilesUp(from + spans[0].len, spans[1..], to);
    }
  }

  /** The loop fills the window, or asks for everything, and leaves no hole. */
  lemma {:induction false} RequestsTile(received: nat, requested: nat, total: nat)
    requires received <= requested <= Horizon(received, total)
    ensures Tiles(requested, Requests(received, requested, total), Horizon(received, total))
    decreases total - requested
  {
    match NextDataRequest(received, requested, total)
    case None =>
    case Some(next) => RequestsTile(received, requested + next.len, total);
  }

  /** The loop asks for as much as it may at a time, so it sends as few requests as can be. */
  lemma {:induction false} RequestsAreLongest(received: nat, requested: nat, total: nat)
    requires received <= requested <= Horizon(received, total)
    ensures
      var requests := Requests(received, requested, total);
      && (forall i :: 0 <= i < |requests| - 1 ==> requests[i].len == 16 * 1024)
      && |requests| == (Horizon(received, total) - requested + 16 * 1024 - 1) / (16 * 1024)
    decreases total - requested
  {
    match NextDataRequest(received, requested, total)
    case None =>
    case Some(next) =>
      RequestsAreLongest(received, requested + next.len, total);
      var rest := Requests(received, requested + next.len, total);
      assert Requests(received, requested, total) == [next] + rest;
  }

  // ----- Both ends and the channel between them -----

  datatype Phase = Connecting | Transferring | Finished | Failed

  /** A peer connection in use: what the downloader holds, how far it has asked, every request
      it has issued, the messages in flight each way, and whether the uploader has been told it
      is over. */
  datatype Link = Link(
    phase: Phase,
    data: Bytes,
    requested: nat,
    issued: seq<DataRequest>,
    toUploader: seq<DownloaderMessage>,
    toDownloader: seq<UploaderMessage>,
    uploaderDone: bool)

  /** The data channel has opened, and the downloader has said hello. */
  function Opened(): Link {
    Link(Connecting, [], 0, [], [DownloaderHello], [], false)
  }

  function AsMessages(requests: seq<DataRequest>): seq<DownloaderMessage> {
    if requests == [] then [] else [Ask(requests[0])] + AsMessages(requests[1..])
  }

  /** Asks for more or, with everything here, writes the file out and says so. `breaks` is the
      decryption or the write failing; only a file of the right length is decrypted. Having
      asked for less than is held, or for more than there is, is a failure. */
  function RequestDataOrFinish(l: Link, total: nat, breaks: bool): Link {
    if |l.data| < total then
      if |l.data| <= l.requested <= total then
        l.(requested := RequestedAfter(|l.data|, l.requested, total),
           issued := l.issued + Requests(|l.data|, l.requested, total),
           toUploader := l.toUploader + AsMessages(Requests(|l.data|, l.requested, total)),
           phase := Transferring)
      else l.(phase := Failed)
    else if breaks && |l.data| == total then l.(phase := Failed)
    else l.(toUploader := l.toUploader + [TransferFinished], phase := Finished)
  }

  /** Where the loop leaves `requested`. */
  function RequestedAfter(received: nat, requested: nat, total: nat): nat
    requires received <= requested <= total
    decreases total - requested
  {
    match NextDataRequest(received, requested, total)
    case None => requested
    case Some(next) => RequestedAfter(received, requested + next.len, total)
  }

  lemma {:induction false} RequestedReachesHorizon(received: nat, requested: nat, total: nat)
    requires received <= requested <= Horizon(received, total)
    ensures RequestedAfter(received, requested, total) == Horizon(received, total)
    decreases total - requested
  {
    match NextDataRequest(received, requested, total)
    case None =>
    case Some(next) => RequestedReachesHorizon(received, requested + next.len, total);
  }

  /** The downloader handles one message. While connecting, a message that leaves the transfer
      going also starts it. */
  function OnUploaderMessage(l: Link, message: UploaderMessage, total: nat, breaks: bool): Link {
    match message
    case DataResponse(offset, data) =>
      var received := if offset == |l.data| then l.(data := l.data + data) else l;
      var asked := RequestDataOrFinish(received, total, breaks);
      if l.phase == Connecting && asked.phase == Transferring then RequestDataOrFinish(asked, total, breaks) else asked
    case _ => if l.phase == Connecting then RequestDataOrFinish(l, total, breaks) else l
  }

  /** The uploader handles one message; a request outside its file is a failure. */
  function OnDownloaderMessage(content: Bytes, l: Link, message: DownloaderMessage): Link {
    match message
    case DownloaderHello => l.(toDownloader := l.toDownloader + [UploaderHello])
    case Ask(request) =>
      if request.offset + request.len <= |content| then
        l.(toDownloader := l.toDownloader
             + [DataResponse(request.offset, content[request.offset..request.offset + request.len])])
      else l.(phase := Failed)
    case TransferFinished => l.(uploaderDone := true)
    case UnknownToUploader => l
  }

  datatype Turn = UploaderTurn | DownloaderTurn(breaks: bool)

  predicate Possible(l: Link, turn: Turn) {
    match turn
    case UploaderTurn => l.toUploader != [] && !l.uploaderDone && l.phase != Failed
    case DownloaderTurn(_) => l.toDownloader != [] && (l.phase == Connecting || l.phase == Transferring)
  }

  function Take(content: Bytes, l: Link, turn: Turn): Link
    requires Possible(l, turn)
  {
    match turn
    case UploaderTurn => OnDownloaderMessage(content, l.(toUploader := l.toUploader[1..]), l.toUploader[0])
    case DownloaderTurn(breaks) =>
      OnUploaderMessage(l.(toDownloader := l.toDownloader[1..]), l.toDownloader[0], |content|, breaks)
  }

  // ----- The invariant -----

  /** What the responses in flight carry. */
  function Answered(messages: seq<UploaderMessage>): seq<DataRequest> {
    if messages == [] then []
    else (if messages[0].DataResponse? then [DataRequest(messages[0].offset, |messages[0].data|)] else [])
         + Answered(messages[1..])
  }

  /** What the requests in flight ask for. */
  function Asked(messages: seq<DownloaderMessage>): seq<DataRequest> {
    if messages == [] then []
    else (if messages[0].Ask? then [messages[0].request] else []) + Asked(messages[1..])
  }

  predicate FromContent(content: Bytes, messages: seq<UploaderMessage>) {
    forall m <- messages :: m.DataResponse? &&
      m.offset + |m.data| <= |content| && content[m.offset..m.offset + |m.data|] == m.data
  }

  /** During a transfer, responses and then requests in flight cover exactly what has been asked
      for and not received, and the window is full. */
  predicate Flowing(content: Bytes, l: Link) {
    && |l.data| < |content|
    && l.requested == Horizon(|l.data|, |content|)
    && Tiles(|l.data|, Answered(l.toDownloader) + Asked(l.toUploader), l.requested)
    && Tiles(0, l.issued, l.requested)
    && FromContent(content, l.toDownloader)
    && (forall m <- l.toUploader :: m.Ask?)
    && !l.uploaderDone
  }

  predicate Linked(content: Bytes, l: Link) {
    && l.data <= content
    && (match l.phase
        case Connecting =>
          && l.data == [] && l.requested == 0 && l.issued == [] && !l.uploaderDone
          && ((l.toUploader == [DownloaderHello] && l.toDownloader == [])
              || (l.toUploader == [] && l.toDownloader == [UploaderHello]))
        case Transferring => Flowing(content, l)
        case Finished =>
          && l.data == content && l.toDownloader == []
          && l.requested == |content| && Tiles(0, l.issued, |content|)
          && l.toUploader == (if l.uploaderDone then [] else [TransferFinished])
        case Failed => true)
  }

  lemma {:induction false} AskedAppend(a: seq<DownloaderMessage>, b: seq<DownloaderMessage>)
    ensures Asked(a + b) == Asked(a) + Asked(b)
  {
    if a == [] {
      assert a + b == b;
    } else {
      assert (a + b)[1..] == a[1..] + b;
      AskedAppend(a[1..], b);
      var first := if a[0].Ask? then [a[0].request] else [];
      assert Asked(a + b) == first + (Asked(a[1..]) + Asked(b));
      assert first + (Asked(a[1..]) + Asked(b)) == (first + Asked(a[1..])) + Asked(b);
    }
  }

  lemma {:induction false} AnsweredAppend(a: seq<UploaderMessage>, b: seq<UploaderMessage>)
    ensures Answered(a + b) == Answered(a) + Answered(b)
  {
    if a == [] {
      assert a + b == b;
    } else {
      assert (a + b)[1..] == a[1..] + b;
      AnsweredAppend(a[1..], b);
      var first := if a[0].DataResponse? then [DataRequest(a[0].offset, |a[0].data|)] else [];
      assert Answered(a + b) == first + (Answered(a[1..]) + Answered(b));
      assert first + (Answered(a[1..]) + Answered(b)) == (first + Answered(a[1..])) + Answered(b);
    }
  }

  lemma {:induction false} AskedOfMessages(requests: seq<DataRequest>)
    ensures Asked(AsMessages(requests)) == requests
    ensures forall m <- AsMessages(requests) :: m.Ask?
  {
    if requests != [] {
      assert AsMessages(requests)[1..] == AsMessages(requests[1..]);
      AskedOfMessages(requests[1..]);
    }
  }

  /** Asking for more refills the window. */
  lemma AskingFlows(content: Bytes, l: Link, breaks: bool)
    requires |l.data| < |content| && l.data <= content && !l.uploaderDone
    requires |l.data| <= l.requested <= Horizon(|l.data|, |content|)
    requires Tiles(|l.data|, Answered(l.toDownloader) + Asked(l.toUploader), l.requested)
    requires Tiles(0, l.issued, l.requested)
    requires FromContent(content, l.toDownloader) && (forall m <- l.toUploader :: m.Ask?)
    ensures
      var next := RequestDataOrFinish(l, |content|, breaks);
      next.phase == Transferring && next.data == l.data && Flowing(content, next)
  {
    hide Requests, RequestedAfter, Horizon, Answered, Asked, AsMessages, Tiles, NextDataRequest;
    HorizonWithin(|l.data|, |content|);
    var requests := Requests(|l.data|, l.requested, |content|);
    RequestsTile(|l.data|, l.requested, |content|);
    RequestedReachesHorizon(|l.data|, l.requested, |content|);
    AskedAppend(l.toUploader, AsMessages(requests));
    AskedOfMessages(requests);
    TilesAppend(|l.data|, Answered(l.toDownloader) + Asked(l.toUploader), l.requested, requests,
                Horizon(|l.data|, |content|));
    TilesAppend(0, l.issued, l.requested, requests, Horizon(|l.data|, |content|));
    assert Answered(l.toDownloader) + Asked(l.toUploader) + requests
        == Answered(l.toDownloader) + (Asked(l.toUploader) + requests);
  }

  lemma HorizonWithin(received: nat, total: nat)
    ensures Horizon(received, total) <= total
  {
  }

  /** Answering the first request moves its piece from the requests to the responses in flight. */
  lemma AnsweringFlows(content: Bytes, l: Link)
    requires Flowing(content, l) && Possible(l, UploaderTurn)
    ensures Take(content, l, UploaderTurn).phase == l.phase && Flowing(content, Take(content, l, UploaderTurn))
  {
    hide Tiles, Horizon, Answered, Asked;
    assert l.toUploader[0] in l.toUploader;
    var request := l.toUploader[0].request;
    AskedFirst(l.toUploader);
    var before, after := Answered(l.toDownloader), [request] + Asked(l.toUploader[1..]);
    TilesPart(|l.data|, before, after, l.requested);
    HorizonWithin(|l.data|, |content|);
    var response := DataResponse(request.offset, content[request.offset..request.offset + request.len]);
    AnsweredAppend(l.toDownloader, [response]);
    AnsweredFirst([response]);
    assert before + [request] + Asked(l.toUploader[1..]) == before + after;
    assert forall m <- l.toUploader[1..] :: m in l.toUploader;
  }

  lemma AskedFirst(messages: seq<DownloaderMessage>)
    requires messages != [] && messages[0].Ask?
    ensures Asked(messages) == [messages[0].request] + Asked(messages[1..])
  {
  }

  lemma AnsweredFirst(messages: seq<UploaderMessage>)
    requires messages != [] && messages[0].DataResponse?
    ensures Answered(messages) == [DataRequest(messages[0].offset, |messages[0].data|)] + Answered(messages[1..])
    ensures |messages| == 1 ==> Answered(messages) == [DataRequest(messages[0].offset, |messages[0].data|)]
  {
    if |messages| == 1 { assert Answered(messages[1..]) == []; }
  }

  lemma TilesFirst(from: nat, first: DataRequest, rest: seq<DataRequest>, to: nat)
    requires Tiles(from, [first] + rest, to)
    ensures first.offset == from && 0 < first.len <= CHUNK_SIZE && Tiles(from + first.len, rest, to)
  {
    assert ([first] + rest)[1..] == rest;
  }

  lemma UploaderTurnKeeps(content: Bytes, l: Link)
    requires Linked(content, l) && Possible(l, UploaderTurn)
    ensures Linked(content, Take(content, l, UploaderTurn))
    ensures Take(content, l, UploaderTurn).phase == l.phase
  {
    if l.phase == Transferring {
      hide Flowing, Take;
      AnsweringFlows(content, l);
      AnsweringKeepsData(content, l);
    }
  }

  lemma AnsweringKeepsData(content: Bytes, l: Link)
    requires Possible(l, UploaderTurn)
    ensures
      var next := Take(content, l, UploaderTurn);
      next.data == l.data && next.requested == l.requested && next.toUploader == l.toUploader[1..]
  {
  }

  lemma OpenedIsLinked(content: Bytes)
    ensures Linked(content, Opened())
  {
  }

  /** Any piece of a tiling lies inside it. */
  lemma {:induction false} TilesPart(from: nat, a: seq<DataRequest>, b: seq<DataRequest>, to: nat)
    requires Tiles(from, a + b, to) && b != []
    ensures b[0].offset + b[0].len <= to
    decreases |a|
  {
    if a == [] {
      assert a + b == b;
      TilesUp(from + b[0].len, b[1..], to);
    } else {
      assert (a + b)[1..] == a[1..] + b;
      TilesPart(from + a[0].len, a[1..], b, to);
    }
  }

  /** Every response arrives exactly where the downloader is. */
  lemma ResponseIsNext(content: Bytes, l: Link)
    requires Flowing(content, l) && l.data <= content && l.toDownloader != []
    ensures
      var head := l.toDownloader[0];
      && head.DataResponse? && head.offset == |l.data| && 0 < |head.data| <= CHUNK_SIZE
      && l.data + head.data <= content
      && |l.data| + |head.data| <= l.requested
      && Tiles(|l.data| + |head.data|, Answered(l.toDownloader[1..]) + Asked(l.toUploader), l.requested)
  {
    hide Asked, Answered, Horizon, Tiles;
    var head := l.toDownloader[0];
    assert head in l.toDownloader;
    var rest := Answered(l.toDownloader[1..]) + Asked(l.toUploader);
    AnsweredFirst(l.toDownloader);
    assert Answered(l.toDownloader) + Asked(l.toUploader) == [DataRequest(head.offset, |head.data|)] + rest;
    TilesFirst(|l.data|, DataRequest(head.offset, |head.data|), rest, l.requested);
    TilesUp(|l.data| + |head.data|, rest, l.requested);
    SlicesJoin(content, 0, |l.data|, |l.data| + |head.data|);
  }

  /** Whatever message comes next, what is held after it is a prefix of the content. */
  lemma HeldIsPrefix(content: Bytes, l: Link)
    requires Linked(content, l) && Possible(l, DownloaderTurn(false))
    ensures l.data <= content
    ensures
      var head := l.toDownloader[0];
      head.DataResponse? && head.offset == |l.data| ==> l.data + head.data <= content
  {
    if l.phase == Transferring {
      hide Flowing;
      ResponseIsNext(content, l);
    }
  }

  lemma FinishedHasAll(content: Bytes, l: Link)
    requires Linked(content, l) && l.phase == Finished
    ensures l.data == content
  {
  }

  /** The uploader's hello starts the transfer. */
  lemma HelloKeeps(content: Bytes, l: Link, breaks: bool)
    requires |content| >= 1 && Linked(content, l) && Possible(l, DownloaderTurn(breaks)) && l.phase == Connecting
    ensures
      var next := Take(content, l, DownloaderTurn(breaks));
      Linked(content, next) && next.phase == Transferring
  {
    hide RequestDataOrFinish, Flowing;
    assert Answered([]) + Asked([]) == [];
    AskingFlows(content, l.(toDownloader := l.toDownloader[1..]), breaks);
  }

  lemma ResponseKeeps(content: Bytes, l: Link, breaks: bool)
    requires |content| >= 1 && Linked(content, l) && Possible(l, DownloaderTurn(breaks)) && l.phase == Transferring
    ensures
      var next := Take(content, l, DownloaderTurn(breaks));
      Linked(content, next) && (next.phase == Failed ==> breaks)
  {
    hide Tiles, Answered, Asked, Horizon, RequestDataOrFinish;
    var head := l.toDownloader[0];
    ResponseIsNext(content, l);
    var received := l.(toDownloader := l.toDownloader[1..], data := l.data + head.data);
    assert forall m <- received.toDownloader :: m in l.toDownloader;
    HorizonGrows(|l.data|, |received.data|, |content|);
    if |received.data| < |content| {
      AskingFlows(content, received, breaks);
    } else {
      FinishingEnds(content, received, breaks);
    }
  }

  lemma HorizonGrows(received: nat, more: nat, total: nat)
    requires received <= more
    ensures Horizon(received, total) <= Horizon(more, total) <= total
  {
  }

  /** With everything received, the file is written out and the uploader told. */
  lemma FinishingEnds(content: Bytes, l: Link, breaks: bool)
    requires l.data == content && l.requested <= |content| && !l.uploaderDone
    requires Tiles(|content|, Answered(l.toDownloader) + Asked(l.toUploader), l.requested)
    requires Tiles(0, l.issued, l.requested)
    requires FromContent(content, l.toDownloader) && (forall m <- l.toUploader :: m.Ask?)
    ensures
      var next := RequestDataOrFinish(l, |content|, breaks);
      && Linked(content, next) && (next.phase == Failed ==> breaks)
      && next.phase != Connecting && next.phase != Transferring
  {
    hide Tiles, Answered, Asked, Requests, RequestedAfter;
    TilesUp(|content|, Answered(l.toDownloader) + Asked(l.toUploader), l.requested);
    NothingInFlight(content, l);
  }

  lemma DownloaderTurnKeeps(content: Bytes, l: Link, breaks: bool)
    requires |content| >= 1 && Linked(content, l) && Possible(l, DownloaderTurn(breaks))
    ensures Linked(content, Take(content, l, DownloaderTurn(breaks)))
    ensures Take(content, l, DownloaderTurn(breaks)).phase == Failed ==> breaks
  {
    hide Linked, Take;
    if l.phase == Connecting {
      HelloKeeps(content, l, breaks);
    } else {
      ResponseKeeps(content, l, breaks);
    }
  }

  /** With nothing left to cover, nothing is in flight. */
  lemma NothingInFlight(content: Bytes, l: Link)
    requires FromContent(content, l.toDownloader) && (forall m <- l.toUploader :: m.Ask?)
    ensures Answered(l.toDownloader) + Asked(l.toUploader) == [] ==> l.toDownloader == [] && l.toUploader == []
  {
    if l.toDownloader != [] {
      assert l.toDownloader[0] in l.toDownloader;
      assert |Answered(l.toDownloader)| >= 1;
    } else if l.toUploader != [] {
      assert l.toUploader[0] in l.toUploader;
      assert |Asked(l.toUploader)| >= 1;
    }
  }

  lemma TurnKeeps(content: Bytes, l: Link, turn: Turn)
    requires |content| >= 1 && Linked(content, l) && Possible(l, turn)
    ensures Linked(content, Take(content, l, turn))
  {
    match turn
    case UploaderTurn => UploaderTurnKeeps(content, l);
    case DownloaderTurn(breaks) => DownloaderTurnKeeps(content, l, breaks);
  }

  // ----- Progress -----

  function AskWeight(messages: seq<DownloaderMessage>): nat {
    if messages == [] then 0
    else (match messages[0]
          case DownloaderHello => 2
          case Ask(request) => 2 * request.len
          case TransferFinished => 1
          case UnknownToUploader => 1) + AskWeight(messages[1..])
  }

  function AnswerWeight(messages: seq<UploaderMessage>): nat {
    if messages == [] then 0
    else (if messages[0].DataResponse? then |messages[0].data| else 1) + AnswerWeight(messages[1..])
  }

  /** What is left to do: each byte is asked for, answered and received, in that order. */
  function Work(content: Bytes, l: Link): nat
    requires l.requested <= |content|
  {
    3 * (|content| - l.requested) + AskWeight(l.toUploader) + AnswerWeight(l.toDownloader)
    + if l.phase == Connecting || l.phase == Transferring then 2 else 0
  }

  lemma {:induction false} AskWeightAppend(a: seq<DownloaderMessage>, b: seq<DownloaderMessage>)
    ensures AskWeight(a + b) == AskWeight(a) + AskWeight(b)
  {
    if a == [] {
      assert a + b == b;
    } else {
      assert (a + b)[1..] == a[1..] + b;
      AskWeightAppend(a[1..], b);
    }
  }

  lemma {:induction false} AnswerWeightAppend(a: seq<UploaderMessage>, b: seq<UploaderMessage>)
    ensures AnswerWeight(a + b) == AnswerWeight(a) + AnswerWeight(b)
  {
    if a == [] {
      assert a + b == b;
    } else {
      assert (a + b)[1..] == a[1..] + b;
      AnswerWeightAppend(a[1..], b);
    }
  }

  lemma {:induction false} RequestsWeigh(received: nat, requested: nat, total: nat)
    requires received <= requested <= total
    ensures requested <= RequestedAfter(received, requested, total) <= total
    ensures AskWeight(AsMessages(Requests(received, requested, total)))
         == 2 * (RequestedAfter(received, requested, total) - requested)
    decreases total - requested
  {
    match NextDataRequest(received, requested, total)
    case None =>
    case Some(next) =>
      var rest := Requests(received, requested + next.len, total);
      RequestsWeigh(received, requested + next.len, total);
      assert Requests(received, requested, total)[1..] == rest;
      assert AsMessages([next] + rest)[1..] == AsMessages(rest);
  }

  lemma RequestingWorks(content: Bytes, l: Link, breaks: bool)
    requires |l.data| <= l.requested <= |content| && l.phase != Finished && l.phase != Failed
    ensures RequestDataOrFinish(l, |content|, breaks).requested <= |content|
    ensures Work(content, RequestDataOrFinish(l, |content|, breaks)) <= Work(content, l)
  {
    if |l.data| < |content| {
      RequestsWeigh(|l.data|, l.requested, |content|);
      AskWeightAppend(l.toUploader, AsMessages(Requests(|l.data|, l.requested, |content|)));
    } else {
      AskWeightAppend(l.toUploader, [TransferFinished]);
      assert AskWeight([TransferFinished][1..]) == 0;
    }
  }

  /** Every turn leaves strictly less to do. */
  lemma TurnWorks(content: Bytes, l: Link, turn: Turn)
    requires |content| >= 1 && Linked(content, l) && Possible(l, turn) && l.requested <= |content|
    ensures Take(content, l, turn).requested <= |content|
    ensures Work(content, Take(content, l, turn)) < Work(content, l)
  {
    match turn
    case UploaderTurn => UploaderTurnWorks(content, l);
    case DownloaderTurn(breaks) =>
      var head, rest := l.toDownloader[0], l.(toDownloader := l.toDownloader[1..]);
      assert AnswerWeight(l.toDownloader)
          == (if head.DataResponse? then |head.data| else 1) + AnswerWeight(rest.toDownloader);
      if l.phase == Connecting {
        RequestingWorks(content, rest, breaks);
      } else {
        ResponseIsNext(content, l);
        RequestingWorks(content, rest.(data := l.data + head.data), breaks);
      }
  }

  lemma UploaderTurnWorks(content: Bytes, l: Link)
    requires Linked(content, l) && Possible(l, UploaderTurn) && l.requested <= |content|
    ensures Work(content, Take(content, l, UploaderTurn)) < Work(content, l)
  {
    var head, rest := l.toUploader[0], l.toUploader[1..];
    assert head in l.toUploader;
    if l.phase == Transferring {
      var request := head.request;
      assert Asked(l.toUploader) == [request] + Asked(rest);
      TilesPart(|l.data|, Answered(l.toDownloader), [request] + Asked(rest), l.requested);
      TilesHeadIsSome(|l.data|, Answered(l.toDownloader), [request] + Asked(rest), l.requested);
      var response := [DataResponse(request.offset, content[request.offset..request.offset + request.len])];
      AnswerWeightAppend(l.toDownloader, response);
      assert AnswerWeight(response[1..]) == 0;
    } else if head == DownloaderHello {
      AnswerWeightAppend(l.toDownloader, [UploaderHello]);
      assert AnswerWeight([UploaderHello][1..]) == 0;
    }
  }

  lemma {:induction false} TilesHeadIsSome(from: nat, a: seq<DataRequest>, b: seq<DataRequest>, to: nat)
    requires Tiles(from, a + b, to) && b != []
    ensures 0 < b[0].len <= CHUNK_SIZE
    decreases |a|
  {
    if a == [] {
      assert a + b == b;
    } else {
      assert (a + b)[1..] == a[1..] + b;
      TilesHeadIsSome(from + a[0].len, a[1..], b, to);
    }
  }

  // ----- Whole transfers -----

  /** Taking turns in the given order, each of them possible. */
  predicate Schedule(content: Bytes, l: Link, turns: seq<Turn>)
    decreases |turns|
  {
    turns == [] || (Possible(l, turns[0]) && Schedule(content, Take(content, l, turns[0]), turns[1..]))
  }

  function Play(content: Bytes, l: Link, turns: seq<Turn>): Link
    decreases |turns|
  {
    if turns == [] || !Possible(l, turns[0]) then l
    else Play(content, Take(content, l, turns[0]), turns[1..])
  }

  lemma {:induction false} PlayKeeps(content: Bytes, l: Link, turns: seq<Turn>)
    requires |content| >= 1 && Linked(content, l) && Schedule(content, l, turns) && l.requested <= |content|
    ensures Linked(content, Play(content, l, turns)) && Play(content, l, turns).requested <= |content|
    ensures |turns| + Work(content, Play(content, l, turns)) <= Work(content, l)
    ensures Play(content, l, turns).phase == Failed ==> l.phase == Failed || DownloaderTurn(true) in turns
    decreases |turns|
  {
    if turns != [] {
      var next := Take(content, l, turns[0]);
      TurnKeeps(content, l, turns[0]);
      TurnWorks(content, l, turns[0]);
      PlayKeeps(content, next, turns[1..]);
      if next.phase == Failed && l.phase != Failed { FailureHasCause(content, l, turns[0]); }
    }
  }

  lemma FailureHasCause(content: Bytes, l: Link, turn: Turn)
    requires |content| >= 1 && Linked(content, l) && Possible(l, turn)
    requires l.phase != Failed && Take(content, l, turn).phase == Failed
    ensures turn == DownloaderTurn(true)
  {
    match turn
    case UploaderTurn => UploaderTurnKeeps(content, l);
    case DownloaderTurn(breaks) => DownloaderTurnKeeps(content, l, breaks);
  }

  /** A transfer that is not over can always take a turn: it cannot deadlock. */
  lemma NeverStuck(content: Bytes, l: Link)
    requires |content| >= 1 && Linked(content, l) && (l.phase == Connecting || l.phase == Transferring)
    ensures Possible(l, UploaderTurn) || Possible(l, DownloaderTurn(false))
  {
    if l.phase == Transferring {
      TilesUp(|l.data|, Answered(l.toDownloader) + Asked(l.toUploader), l.requested);
    }
  }

  /** However the two ends' turns interleave: the window bounds hold throughout, the transfer is
      over within a fixed number of turns, and when no turn is left to take, the downloader
      holds exactly the uploader's bytes and the uploader knows it. */
  lemma TransferDelivers(content: Bytes, turns: seq<Turn>)
    requires |content| >= 1 && Schedule(content, Opened(), turns)
    requires DownloaderTurn(true) !in turns
    ensures
      var l := Play(content, Opened(), turns);
      && l.data <= content && |l.data| <= l.requested <= |content|
      && l.requested - |l.data| <= 10 * 1024 * 1024 && Tiles(0, l.issued, l.requested)
      && |turns| <= 3 * |content| + 4
      && l.phase != Failed
      && (l.phase == Finished ==> l.data == content)
      && (!Possible(l, UploaderTurn) && !Possible(l, DownloaderTurn(false)) ==>
            l.phase == Finished && l.data == content && l.uploaderDone)
  {
    var l := Play(content, Opened(), turns);
    assert AskWeight([DownloaderHello][1..]) == 0;
    PlayKeeps(content, Opened(), turns);
    if l.phase == Connecting || l.phase == Transferring {
      NeverStuck(content, l);
    }
  }
}
