// The upload requests of the relay system make exactly the calls that `Api.Upload` makes.

module RelayScript {
  import opened Base
  import opened RelaySession
  import opened Api
  import opened RelaySystem
  import opened RelayTheorems
  import Range

  /** Where an upload request is in its script. */
  predicate OnScript(h: UploadHandler) {
    var all := Chunked(h.pieces);
    var left := |h.chunks|;
    && 0 < left <= |all| && h.chunks == all[|all| - left..]
    && (match h.pc
        case Starting => h.calls == 1 && left == |all| && h.position == h.start
        case Flushing => h.calls == 2 && left == |all|
        case Reading => h.calls == 2 + |all| - left
        case Sending => h.calls == 3 + |all| - left)
  }

  function AsCall(command: Command): Option<Call> {
    match command
    case StartUpload(_, position, _) => Some(CallStart(position))
    case FlushUpload(_, _) => Some(CallFlush)
    case UploadData(_, chunk, _) => Some(CallData(chunk))
    case _ => None
  }

  ghost predicate AllOnScript(s: System) {
    forall token <- s.uploads :: OnScript(s.uploads[token])
  }

  /** Every upload request but one is as it was. */
  predicate OthersStay(s: System, t: System, token: Token) {
    forall u <- t.uploads :: u != token ==> u in s.uploads && t.uploads[u] == s.uploads[u]
  }

  /** The rest of a list's tail is a tail of the list. */
  lemma TailOfTail(all: seq<Chunk>, left: nat)
    requires 0 < left <= |all|
    ensures all[|all| - left..][1..] == all[|all| - (left - 1)..]
  {
  }

  /** The record of a request that has had a chunk accepted with more behind it. */
  lemma MovedIsOnScript(h: UploadHandler)
    requires OnScript(h) && h.pc == Sending && |h.chunks| > 1
    ensures OnScript(h.(position := h.position + h.chunks[0].Len(), chunks := h.chunks[1..], pc := Reading))
  {
    hide Chunked;
    TailOfTail(Chunked(h.pieces), |h.chunks|);
  }

  /** The records any other answer can leave a request with. */
  lemma AnsweredIsOnScript(h: UploadHandler, response: Option<Response>)
    requires OnScript(h)
    ensures OnScript(h.(alive := false, response := response))
    ensures h.pc == Starting ==> OnScript(h.(pc := Flushing, calls := h.calls + 1))
    ensures h.pc == Flushing ==> OnScript(h.(pc := Reading))
  {
    hide Chunked;
  }

  lemma AnswerKeepsScript(s: System, token: Token, answer: UploadResult)
    requires LiveUpload(s, token) && s.uploads[token].pc != Reading && OnScript(s.uploads[token])
    ensures
      var t := OnUploadAnswer(s, token, s.uploads[token], answer);
      OthersStay(s, t, token) && (token in t.uploads ==> OnScript(t.uploads[token]))
  {
    hide OnScript;
    if s.uploads[token].pc == Sending && |s.uploads[token].chunks| > 1 { MovedIsOnScript(s.uploads[token]); }
    AnsweredIsOnScript(s.uploads[token], if answer.Refused? then Some(UploadErrorResponse(answer.error)) else Some(Ok));
  }

  lemma ReadKeepsScript(s: System, token: Token)
    requires LiveUpload(s, token) && s.uploads[token].pc == Reading && OnScript(s.uploads[token])
    ensures
      var t := CallNext(s, token, s.uploads[token], Sending);
      OthersStay(s, t, token) && (token in t.uploads ==> OnScript(t.uploads[token]))
  {
  }

  lemma DropKeepsScript(s: System, token: Token)
    requires LiveUpload(s, token) && OnScript(s.uploads[token])
    ensures
      var t := EndUpload(s, token, s.uploads[token], None);
      OthersStay(s, t, token) && (token in t.uploads ==> OnScript(t.uploads[token]))
  {
  }

  /** A request changes nothing about uploads unless it is one. */
  lemma OthersKeepUploads(content: Bytes, s: System, action: Action)
    requires !action.PostUpload? && !action.UploadAnswered? && !action.UploadBodyReady? && !action.UploadDropped?
    ensures Apply(content, s, action).uploads == s.uploads
  {
    hide Range.DownloadPositionOf, OnServe, OnDownloadEvent, EndDownload;
    match action
    case Serve => if s.running && s.mailbox != [] { ServeLeavesHandlers(s); }
    case DownloadPolled(token) => if token in s.downloads { EventLeavesUploads(s, token); }
    case DownloadDropped(token) => if token in s.downloads { EndLeavesUploads(s, token); }
    case _ =>
  }

  lemma NewIsOnScript(content: Bytes, s: System, request: UploadRequest, pieces: seq<Bytes>)
    requires AllOnScript(s)
    ensures AllOnScript(Apply(content, s, PostUpload(request, pieces)))
  {
    hide Range.UploadPositionOf, Honest;
  }

  lemma ApplyKeepsScript(content: Bytes, s: System, action: Action)
    requires AllOnScript(s)
    ensures AllOnScript(Apply(content, s, action))
  {
    hide OnScript, OnUploadAnswer, CallNext, EndUpload, AnswerFor;
    match action
    case PostUpload(request, pieces) => NewIsOnScript(content, s, request, pieces);
    case UploadAnswered(token) =>
      if LiveUpload(s, token) && s.uploads[token].pc != Reading {
        var answer := AnswerFor(s, LastReply(token, s.uploads[token]));
        if answer.Some? { AnswerKeepsScript(s, token, answer.value); }
      }
    case UploadBodyReady(token) =>
      if LiveUpload(s, token) && s.uploads[token].pc == Reading { ReadKeepsScript(s, token); }
    case UploadDropped(token) => if LiveUpload(s, token) { DropKeepsScript(s, token); }
    case _ =>
      hide Apply;
      OthersKeepUploads(content, s, action);
  }

  lemma {:induction false} ExecKeepsScript(content: Bytes, s: System, actions: seq<Action>)
    requires AllOnScript(s)
    ensures AllOnScript(Exec(content, s, actions))
    decreases |actions|
  {
    hide Apply, AllOnScript;
    if actions != [] {
      ApplyKeepsScript(content, s, actions[0]);
      ExecKeepsScript(content, Apply(content, s, actions[0]), actions[1..]);
    }
  }

  lemma LastCallIsScripted(token: Token, h: UploadHandler)
    requires OnScript(h) && h.pc != Reading
    ensures h.calls <= |UploadScript(h.start, h.pieces)|
    ensures AsCall(LastCall(token, h)) == Some(UploadScript(h.start, h.pieces)[h.calls - 1])
  {
    hide Chunked;
    var all := Chunked(h.pieces);
    assert h.chunks[0] == all[|all| - |h.chunks|];
  }

  /** In every reachable state the call an upload request waits on is the next one in the script
      of its body, which is what the request handler's loop was proved to make. */
  lemma UploadsFollowTheirScript(content: Bytes, s: System, token: Token)
    requires Reachable(content, s) && token in s.uploads && s.uploads[token].pc != Reading
    ensures
      var h := s.uploads[token];
      && 1 <= h.calls <= |UploadScript(h.start, h.pieces)| && h.chunks != []
      && AsCall(LastCall(token, h)) == Some(UploadScript(h.start, h.pieces)[h.calls - 1])
  {
    hide Exec;
    var metadata: string, actions: seq<Action> :| s == Exec(content, Start(metadata), actions);
    ExecKeepsScript(content, Start(metadata), actions);
    LastCallIsScripted(token, s.uploads[token]);
  }
}
