// The downloading end of a peer transfer, updated in place, and proved to do what `Window`
// says of a link.

module PeerDownload {
  import opened Base
  import opened ApiClient
  import opened Cipher
  import opened Window

  class DownloadState {
    const file: DecryptedFile
    const totalLen: nat
    var requestedOffset: nat
    var sent: seq<DownloaderMessage>

    constructor (file: DecryptedFile)
      ensures this.file == file && totalLen == file.fileSize && requestedOffset == 0 && sent == []
    {
      this.file := file;
      totalLen := file.fileSize;
      requestedOffset := 0;
      sent := [];
    }

    /** The channel has opened: the downloader says hello. */
    method DataChannelOpened()
      modifies this`sent
      ensures sent == old(sent) + [DownloaderHello]
    {
      sent := sent + [DownloaderHello];
    }

    /** The channel takes the first message on to the uploader. */
    method TakeSent() returns (message: DownloaderMessage)
      requires sent != []
      modifies this`sent
      ensures message == old(sent)[0] && sent == old(sent)[1..]
    {
      message := sent[0];
      sent := sent[1..];
    }

    /** This end's part of a link. */
    function AsLink(phase: Phase): Link
      requires file.state.Unwritten?
      reads this, file
    {
      Link(phase, file.state.data, requestedOffset, [], sent, [], false)
    }

    /** `next` is how this end stands after asking for more or finishing. */
    ghost predicate Became(next: Link)
      reads this, file
    {
      && sent == next.toUploader && requestedOffset == next.requested
      && (next.phase == Transferring || next.phase == Connecting ==> file.state == Unwritten(next.data))
      && (next.phase == Finished ==>
            if |next.data| == totalLen then file.state == Complete else file.state == Unwritten(next.data))
    }

    /** What finishing does: the bytes received are decrypted and written exactly if they have
        the expected length, and otherwise nothing is. */
    ghost predicate Written(received: Bytes, before: seq<Bytes>)
      reads this, file
    {
      if |received| == totalLen then file.state == Complete && file.decrypted == before + [received]
      else file.state == Unwritten(received) && file.decrypted == before
    }

    /** What is held once the message has been taken in. */
    function HeldAfter(message: UploaderMessage): Bytes
      requires file.state.Unwritten?
      reads this, file
    {
      var held := file.state.data;
      if message.DataResponse? && message.offset == |held| then held + message.data else held
    }

    /** Bytes received so far that are a prefix of the content leave a file that holds it. */
    ghost predicate StillHolds(received: Bytes)
      reads file
    {
      forall content: Bytes :: |content| == totalLen && received <= content ==> file.Holds(content)
    }

    /** Fills the window with requests, or writes the file out and says the transfer is over.
        Having asked for less than is held, or for more than there is, is a failure. */
    method RequestDataOrFinish(phase: Phase, pauses: nat, breaks: bool) returns (flow: Phase)
      requires file.state.Unwritten? && file.fileSize == totalLen
      modifies this, file
      ensures
        var next := Window.RequestDataOrFinish(old(AsLink(phase)), totalLen, breaks);
        flow == next.phase && Became(next)
      ensures flow == Transferring ==> file.decrypted == old(file.decrypted)
      ensures flow == Phase.Finished ==> Written(old(file.state).data, old(file.decrypted))
      ensures
        var received, asked := |old(file.state).data|, old(requestedOffset);
        && (flow == Phase.Failed <==>
              (received < totalLen && !(received <= asked <= totalLen)) || (received == totalLen && breaks))
        && (flow == Transferring <==> received <= asked <= totalLen && received < totalLen)
      ensures old(file.decrypted) == [] ==> StillHolds(old(file.state).data)
    {
      assert file.decrypted == [] ==> StillHolds(file.state.data);
      var received := file.Offset();
      if received < totalLen {
        if requestedOffset < received || totalLen < requestedOffset {
          return Phase.Failed;
        }
        AskForMore(received);
        flow := Transferring;
      } else {
        var flushed := file.Flush(pauses, breaks);
        if !flushed {
          return Phase.Failed;
        }
        sent := sent + [TransferFinished];
        flow := Phase.Finished;
      }
    }

    /** The request loop: asks until the window is full or there is nothing left to ask for. */
    method AskForMore(received: nat)
      requires received <= requestedOffset <= totalLen
      modifies this`requestedOffset, this`sent
      ensures sent == old(sent) + AsMessages(Requests(received, old(requestedOffset), totalLen))
      ensures requestedOffset == RequestedAfter(received, old(requestedOffset), totalLen)
    {
      ghost var start := requestedOffset;
      ghost var all := AsMessages(Requests(received, start, totalLen));
      var next := NextDataRequest(received, requestedOffset, totalLen);
      while next.Some?
        invariant received <= requestedOffset <= totalLen
        invariant next == NextDataRequest(received, requestedOffset, totalLen)
        invariant sent + AsMessages(Requests(received, requestedOffset, totalLen)) == old(sent) + all
        invariant RequestedAfter(received, requestedOffset, totalLen) == RequestedAfter(received, start, totalLen)
        decreases totalLen - requestedOffset
      {
        ghost var rest := Requests(received, requestedOffset + next.value.len, totalLen);
        assert AsMessages([next.value] + rest) == [Ask(next.value)] + AsMessages(rest) by {
          assert ([next.value] + rest)[1..] == rest;
        }
        sent := sent + [Ask(next.value)];
        requestedOffset := requestedOffset + next.value.len;
        next := NextDataRequest(received, requestedOffset, totalLen);
      }
    }

    /** A message from the uploader. */
    method HandleUploaderMessage(phase: Phase, message: UploaderMessage, pauses: nat, breaks: bool)
      returns (flow: Phase)
      requires file.state.Unwritten? && file.fileSize == totalLen
      modifies this, file
      ensures !message.DataResponse? ==>
        && flow == phase && sent == old(sent) && requestedOffset == old(requestedOffset)
        && file.state == old(file.state) && file.decrypted == old(file.decrypted)
      ensures message.DataResponse? ==>
        var l := old(AsLink(phase));
        var held := if message.offset == |l.data| then l.(data := l.data + message.data) else l;
        var next := Window.RequestDataOrFinish(held, totalLen, breaks);
        && flow == next.phase && Became(next)
        && (flow == Transferring ==> file.decrypted == old(file.decrypted))
        && (flow == Phase.Finished ==> Written(held.data, old(file.decrypted)))
        && (old(file.decrypted) == [] ==> StillHolds(held.data))
    {
      match message
      case DataResponse(offset, data) =>
        var received := file.Offset();
        if received == offset {
          var ok := file.WriteAll(data);
        }
        flow := RequestDataOrFinish(phase, pauses, breaks);
      case _ => flow := phase;
    }

    /** A message on the data channel. The first one also starts the transfer. */
    method DataChannelMessage(phase: Phase, message: UploaderMessage, pauses: nat, breaks: bool)
      returns (flow: Phase)
      requires phase == Connecting || phase == Transferring
      requires file.state.Unwritten? && file.fileSize == totalLen
      modifies this, file
      ensures
        var next := OnUploaderMessage(old(AsLink(phase)), message, totalLen, breaks);
        flow == next.phase && Became(next)
      ensures flow == Phase.Finished ==> Written(old(HeldAfter(message)), old(file.decrypted))
      ensures old(file.decrypted) == [] ==> StillHolds(old(HeldAfter(message)))
    {
      hide NextDataRequest, Requests, RequestedAfter, AsMessages;
      assert file.decrypted == [] && !message.DataResponse? ==> StillHolds(file.state.data);
      flow := HandleUploaderMessage(phase, message, pauses, breaks);
      if phase == Connecting && (flow == Connecting || flow == Transferring) {
        flow := RequestDataOrFinish(flow, pauses, breaks);
      }
    }
  }

  /** This end stands as the link says, and what it holds is the content's. */
  ghost predicate Stands(d: DownloadState, content: Bytes, l: Link)
    reads d, d.file
  {
    && d.file.fileSize == d.totalLen == |content| && d.file.Holds(content)
    && (l.phase != Phase.Failed ==> d.sent == l.toUploader && d.requestedOffset == l.requested)
    && (l.phase == Connecting || l.phase == Transferring ==> d.file.state == Unwritten(l.data))
    && (l.phase == Phase.Finished ==> d.file.state == Complete)
  }

  /** A response longer than what is missing: the transfer finishes, the uploader is told so,
      and nothing is decrypted. */
  method FinishedUnwritten(data: Bytes) returns (d: DownloadState, flow: Phase)
    requires |data| > EXTRA_CIPHERTEXT_LEN
    ensures d.totalLen == EXTRA_CIPHERTEXT_LEN && flow == Phase.Finished && d.sent == [TransferFinished]
    ensures d.file.state == Unwritten(data) && d.file.decrypted == []
  {
    var file := new DecryptedFile(0);
    d := new DownloadState(file);
    assert [] + data == data;
    flow := d.DataChannelMessage(Transferring, DataResponse(0, data), 0, false);
  }

  /** Two links that agree on what this end knows. */
  predicate SameEnd(l: Link, k: Link) {
    l.phase == k.phase && l.data == k.data && l.requested == k.requested && l.toUploader == k.toUploader
  }

  lemma SameAsked(l: Link, k: Link, total: nat, breaks: bool)
    requires SameEnd(l, k)
    ensures SameEnd(RequestDataOrFinish(l, total, breaks), RequestDataOrFinish(k, total, breaks))
  {
    hide Requests, RequestedAfter, NextDataRequest, AsMessages;
  }

  /** What a link does with a message depends only on this end's part of it. */
  lemma SameMessage(l: Link, k: Link, message: UploaderMessage, total: nat, breaks: bool)
    requires SameEnd(l, k)
    ensures SameEnd(OnUploaderMessage(l, message, total, breaks), OnUploaderMessage(k, message, total, breaks))
  {
    hide RequestDataOrFinish;
    if message.DataResponse? {
      var x := if message.offset == |l.data| then l.(data := l.data + message.data) else l;
      var y := if message.offset == |k.data| then k.(data := k.data + message.data) else k;
      SameAsked(x, y, total, breaks);
      SameAsked(RequestDataOrFinish(x, total, breaks), RequestDataOrFinish(y, total, breaks), total, breaks);
    } else {
      SameAsked(l, k, total, breaks);
    }
  }

  /** One turn of a transfer, with this object as the downloader. */
  method TakeTurn(d: DownloadState, content: Bytes, l: Link, turn: Turn, pauses: nat) returns (next: Link)
    requires |content| >= 1 && Linked(content, l) && Possible(l, turn) && Stands(d, content, l)
    modifies d, d.file
    ensures next == Take(content, l, turn) && Linked(content, next) && Stands(d, content, next)
  {
    hide Linked, Flowing, OnUploaderMessage, RequestDataOrFinish, OnDownloaderMessage;
    TurnKeeps(content, l, turn);
    match turn
    case UploaderTurn =>
      UploaderTurnKeeps(content, l);
      AnsweringKeepsData(content, l);
      var message := d.TakeSent();
      next := OnDownloaderMessage(content, l.(toUploader := l.toUploader[1..]), message);
    case DownloaderTurn(breaks) =>
      var message, rest := l.toDownloader[0], l.(toDownloader := l.toDownloader[1..]);
      ghost var end := d.AsLink(l.phase);
      HeldIsPrefix(content, l);
      var flow := d.DataChannelMessage(l.phase, message, pauses, breaks);
      next := OnUploaderMessage(rest, message, |content|, breaks);
      SameMessage(end, rest, message, |content|, breaks);
      if next.phase == Phase.Finished { FinishedHasAll(content, next); }
  }

  /** A whole transfer, its turns in any possible order: this object ends as the model's
      downloader does, and once it has finished, the content, and only it, was decrypted. */
  method Transfer(d: DownloadState, content: Bytes, turns: seq<Turn>, pauses: nat) returns (l: Link)
    requires |content| >= 1 && Schedule(content, Opened(), turns)
    requires d.file.fileSize == d.totalLen == |content|
    requires d.file.state == Unwritten([]) && d.file.decrypted == [] && d.requestedOffset == 0 && d.sent == []
    modifies d, d.file
    ensures l == Play(content, Opened(), turns) && Stands(d, content, l)
    ensures d.file.decrypted == [] || d.file.decrypted == [content]
    ensures l.phase == Phase.Finished ==> d.file.state == Complete && d.file.decrypted == [content]
    ensures DownloaderTurn(true) !in turns && !Possible(l, UploaderTurn) && !Possible(l, DownloaderTurn(false)) ==>
      d.file.decrypted == [content]
  {
    hide Take, Possible, Linked;
    d.DataChannelOpened();
    l := Opened();
    OpenedIsLinked(content);
    assert turns[0..] == turns;
    for i := 0 to |turns|
      invariant Linked(content, l) && Stands(d, content, l)
      invariant Schedule(content, l, turns[i..])
      invariant Play(content, l, turns[i..]) == Play(content, Opened(), turns)
    {
      assert turns[i..][0] == turns[i] && turns[i..][1..] == turns[i + 1..];
      l := TakeTurn(d, content, l, turns[i], pauses);
    }
    assert turns[|turns|..] == [];
    if DownloaderTurn(true) !in turns {
      TransferDelivers(content, turns);
    }
  }
}
