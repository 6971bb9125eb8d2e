// The clients' side of the relay protocol: an uploader that negotiates where to resume, and
// a downloader that resumes from what it holds and decrypts the whole, once.

module ApiClient {
  import opened Base
  import opened Cipher
  import opened Range
  import RS = RelaySystem

  // ----- Uploading -----

  /** What an HTTP request comes back with. */
  datatype HttpReply =
    | StatusOk
    | StatusError(reason: string)
    | Conflict(position: nat)
    | OtherStatus
    | NoReply

  /** One turn of the upload loop: where it stood, what the check said, and the content
      request, if the check let it send one, with its reply. */
  datatype Exchange = Exchange(position: nat, checked: HttpReply, sent: Option<RS.UploadRequest>, answered: HttpReply)
  {
    function Reply(): HttpReply {
      if sent.Some? then answered else checked
    }

    /** Where the next turn stands. */
    function After(): nat {
      if Reply().Conflict? then Reply().position else position
    }
  }

  /** Turns that stand where the last conflict said, never past the end of the file, and that
      send, exactly when the check allows it, only what an honest uploader sends. */
  predicate Negotiated(file: Bytes, position: nat, turns: seq<Exchange>)
    decreases |turns|
  {
    turns == [] ||
    (&& turns[0].position == position <= |file|
     && (turns[0].sent.Some? <==> turns[0].checked == StatusOk)
     && (turns[0].sent.Some? ==> RS.HonestFrom(file, turns[0].sent.value, position))
     && Negotiated(file, turns[0].After(), turns[1..]))
  }

  function LastPosition(position: nat, turns: seq<Exchange>): nat {
    if turns == [] then position else turns[|turns| - 1].After()
  }

  lemma {:induction false} NegotiatedAppend(file: Bytes, position: nat, turns: seq<Exchange>, turn: Exchange)
    requires Negotiated(file, position, turns)
    requires turn.position == LastPosition(position, turns) <= |file|
    requires turn.sent.Some? <==> turn.checked == StatusOk
    requires turn.sent.Some? ==> RS.HonestFrom(file, turn.sent.value, turn.position)
    ensures Negotiated(file, position, turns + [turn])
    decreases |turns|
  {
    if turns == [] {
      assert turns + [turn] == [turn];
      assert Negotiated(file, turn.After(), [turn][1..]);
    } else {
      assert (turns + [turn])[1..] == turns[1..] + [turn];
      NegotiatedAppend(file, turns[0].After(), turns[1..], turn);
    }
  }

  /** The client may stop after this turn: it failed, and not by being sent elsewhere. */
  predicate MayGiveUp(turn: Exchange) {
    turn.Reply() != StatusOk && (turn.Reply().Conflict? ==> turn.Reply().position == turn.position)
  }

  /** How the content requests were answered, in order. */
  function AnswersIn(turns: seq<Exchange>): seq<HttpReply> {
    if turns == [] then []
    else
      var last := turns[|turns| - 1];
      AnswersIn(turns[..|turns| - 1]) + if last.sent.Some? then [last.answered] else []
  }

  datatype UploadOutcome = Uploaded | PastEnd(position: nat) | GaveUp

  /** Uploads an encrypted file. `checks` and `answers` are what the relay says to each check
      and to each content request; the upload gives up when they run out, or at an error it
      does not retry, whose classification is not part of this model. */
  method UploadFile(file: Bytes, checks: seq<HttpReply>, answers: seq<HttpReply>)
    returns (turns: seq<Exchange>, outcome: UploadOutcome)
    requires |file| >= 1
    ensures Negotiated(file, 0, turns)
    ensures |turns| <= |checks| && forall i :: 0 <= i < |turns| ==> turns[i].checked == checks[i]
    ensures AnswersIn(turns) <= answers
    ensures outcome.Uploaded? <==> turns != [] && turns[|turns| - 1].Reply() == StatusOk
    ensures forall i :: 0 <= i < |turns| - 1 ==> turns[i].Reply() != StatusOk
    ensures outcome.PastEnd? <==> LastPosition(0, turns) > |file|
    ensures outcome.PastEnd? ==> outcome.position == LastPosition(0, turns)
    ensures outcome.GaveUp? && |turns| < |checks| && |AnswersIn(turns)| < |answers| ==>
      turns != [] && MayGiveUp(turns[|turns| - 1])
  {
    hide Negotiated, AnswersIn, RS.HonestFrom;
    turns := [];
    NothingNegotiated(file);
    var position, checked, answered := 0, 0, 0;
    while checked < |checks| && answered < |answers|
      invariant 0 <= checked <= |checks| && 0 <= answered <= |answers| && |turns| == checked
      invariant Negotiated(file, 0, turns) && position == LastPosition(0, turns) <= |file|
      invariant forall i :: 0 <= i < |turns| ==> turns[i].checked == checks[i] && turns[i].Reply() != StatusOk
      invariant AnswersIn(turns) == answers[..answered]
      decreases |checks| - checked
    {
      var turn := TakeTurn(file, position, checks[checked], answers[answered]);
      checked := checked + 1;
      answered := answered + if turn.sent.Some? then 1 else 0;
      NegotiatedAppend(file, 0, turns, turn);
      AnswersAppend(turns, turn);
      turns := turns + [turn];

      match turn.Reply()
      case Conflict(asked) =>
        if asked > |file| {
          return turns, PastEnd(asked);
        }
        if asked == position {
          // The same offset again: back off before trying again.
          var retried: bool := *;
          if !retried {
            return turns, GaveUp;
          }
        }
        position := asked;
      case StatusOk => return turns, Uploaded;
      case _ =>
        var retried: bool := *;
        if !retried {
          return turns, GaveUp;
        }
    }
    outcome := GaveUp;
  }

  lemma NothingNegotiated(file: Bytes)
    ensures Negotiated(file, 0, []) && AnswersIn([]) == []
  {
  }

  lemma AnswersAppend(turns: seq<Exchange>, turn: Exchange)
    ensures AnswersIn(turns + [turn]) == AnswersIn(turns) + if turn.sent.Some? then [turn.answered] else []
  {
    assert (turns + [turn])[..|turns|] == turns;
  }

  /** Asks whether the upload may start here and, if so, sends the rest of the file. */
  method TakeTurn(file: Bytes, position: nat, checked: HttpReply, answered: HttpReply) returns (turn: Exchange)
    requires |file| >= 1 && position <= |file|
    ensures turn.position == position && turn.checked == checked
    ensures turn.sent.Some? <==> checked == StatusOk
    ensures turn.sent.Some? ==> RS.HonestFrom(file, turn.sent.value, position) && turn.answered == answered
  {
    var request := RS.UploadRequest(Some(PrintContentRange(position, |file|)), file[position..]);
    turn := if checked == StatusOk then Exchange(position, checked, Some(request), answered)
            else Exchange(position, checked, None, NoReply);
  }

  // ----- Downloading -----

  datatype WriteState =
    | Unwritten(data: Bytes)
    | Pending(handed: Bytes)
    | Complete
    | Poisoned

  /** What polling the decrypt-and-write future reports. */
  datatype WriteProgress = InProgress | Done | Broken

  datatype WriteResult = Wrote(count: nat) | TooMany

  datatype FlushResult = Flushed | Blocked | FlushFailed

  datatype CloseResult = Closed | CloseBlocked | TooFew | CloseFailed

  /** The file a download is written to: it collects everything, then decrypts it at once. */
  class DecryptedFile {
    const fileSize: nat
    var state: WriteState
    /** Everything ever handed to decryption. */
    ghost var decrypted: seq<Bytes>

    /** What has been collected is a prefix of the content; only the whole of it is ever
        handed to decryption, and only once. */
    ghost predicate Holds(content: Bytes)
      reads this
    {
      && |content| == fileSize
      && (state.Unwritten? ==> state.data <= content && decrypted == [])
      && (state.Pending? ==> state.handed == content)
      && (!state.Unwritten? ==> decrypted == [content])
    }

    constructor (plaintextSize: nat)
      ensures fileSize == plaintextSize + 28 && state == Unwritten([]) && decrypted == []
    {
      fileSize := plaintextSize + EXTRA_CIPHERTEXT_LEN;
      state := Unwritten([]);
      decrypted := [];
    }

    /** How much of the file is here. */
    function Offset(): (offset: nat)
      requires !state.Poisoned?
      reads this
    {
      if state.Unwritten? then |state.data| else fileSize
    }

    method PollWrite(buf: Bytes) returns (result: WriteResult)
      requires !state.Poisoned?
      modifies this`state
      ensures old(state).Unwritten? ==> state == Unwritten(old(state).data + buf) && result == Wrote(|buf|)
      ensures !old(state).Unwritten? ==> state == old(state) && result == TooMany
    {
      match state
      case Unwritten(data) =>
        state := Unwritten(data + buf);
        result := Wrote(|buf|);
      case _ => result := TooMany;
    }

    /** Starts decrypting once everything is here, and polls that until it is done. A failed
        poll leaves the file unusable. */
    method PollFlush(progress: WriteProgress) returns (result: FlushResult)
      requires !state.Poisoned?
      modifies this
      ensures
        var idle := old(state).Complete? || (old(state).Unwritten? && |old(state).data| != fileSize);
        && (idle ==> state == old(state) && decrypted == old(decrypted) && result == Flushed)
        && (!idle ==>
              && decrypted == old(decrypted) + (if old(state).Unwritten? then [old(state).data] else [])
              && (match progress
                  case InProgress =>
                    && state == Pending(if old(state).Unwritten? then old(state).data else old(state).handed)
                    && result == Blocked
                  case Done => state == Complete && result == Flushed
                  case Broken => state == Poisoned && result == FlushFailed))
      ensures forall content :: old(Holds(content)) ==> Holds(content)
    {
      assert forall content :: Holds(content) && state.Unwritten? && |state.data| == fileSize ==>
        state.data == content && decrypted + [state.data] == [content];
      var taken := state;
      state := Poisoned;
      var pending: Bytes;
      match taken {
        case Unwritten(data) =>
          if |data| != fileSize {
            state := taken;
            return Flushed;
          }
          decrypted := decrypted + [data];
          pending := data;
        case Pending(handed) => pending := handed;
        case Complete =>
          state := Complete;
          return Flushed;
      }
      match progress {
        case InProgress =>
          state := Pending(pending);
          result := Blocked;
        case Done =>
          state := Complete;
          result := Flushed;
        case Broken => result := FlushFailed;
      }
    }

    method PollClose(progress: WriteProgress) returns (result: CloseResult)
      requires !state.Poisoned?
      modifies this
      ensures forall content :: old(Holds(content)) ==> Holds(content)
      ensures result == Closed ==> state == Complete
      ensures result == TooFew ==> state == old(state) && state.Unwritten? && |state.data| != fileSize
      ensures result == CloseFailed <==> state == Poisoned
      ensures old(state).Complete? ==> result == Closed
      ensures old(state).Unwritten? && |old(state).data| != fileSize ==> result == TooFew
    {
      var flushed := PollFlush(progress);
      match flushed
      case Blocked => result := CloseBlocked;
      case FlushFailed => result := CloseFailed;
      case Flushed => result := if state.Complete? then Closed else TooFew;
    }

    /** `write_all`: an empty buffer is never polled. */
    method WriteAll(buf: Bytes) returns (ok: bool)
      requires !state.Poisoned?
      modifies this`state
      ensures ok <==> buf == [] || old(state).Unwritten?
      ensures state == if old(state).Unwritten? then Unwritten(old(state).data + buf) else old(state)
    {
      ok := true;
      if buf != [] {
        var result := PollWrite(buf);
        ok := result.Wrote?;
      } else if state.Unwritten? {
        assert state.data + buf == state.data;
      }
    }

    /** Flushing to the end, however often it has to be polled. */
    method Flush(pauses: nat, breaks: bool) returns (ok: bool)
      requires !state.Poisoned?
      modifies this
      ensures forall content :: old(Holds(content)) ==> Holds(content)
      ensures ok <==> !state.Poisoned?
      ensures ok && !state.Unwritten? ==> state == Complete
      ensures old(state).Unwritten? && |old(state).data| != fileSize ==>
        state == old(state) && decrypted == old(decrypted)
      ensures state.Unwritten? ==> |state.data| != fileSize
      ensures old(state).Unwritten? && |old(state).data| == fileSize ==>
        (ok <==> !breaks) && !state.Unwritten? && decrypted == old(decrypted) + [old(state).data]
    {
      var left: nat := pauses;
      var result := PollFlush(if left > 0 then InProgress else if breaks then Broken else Done);
      while result.Blocked?
        invariant forall content :: old(Holds(content)) ==> Holds(content)
        invariant result.Blocked? ==> state.Pending?
        invariant result.FlushFailed? <==> state.Poisoned?
        invariant result.Flushed? ==> state.Complete? || (state.Unwritten? && |state.data| != fileSize)
        invariant old(state).Unwritten? && |old(state).data| != fileSize ==>
          state == old(state) && decrypted == old(decrypted) && result.Flushed?
        invariant old(state).Unwritten? && |old(state).data| == fileSize ==>
          && !state.Unwritten? && decrypted == old(decrypted) + [old(state).data]
          && if breaks then !result.Flushed? else !result.FlushFailed?
        invariant result.Blocked? ==> !old(state).Unwritten? || |old(state).data| == fileSize
        decreases left + if result.Blocked? then 1 else 0
      {
        left := if left > 0 then left - 1 else 0;
        result := PollFlush(if left > 0 then InProgress else if breaks then Broken else Done);
      }
      ok := result.Flushed?;
    }
  }

  /** One download request: the pieces its response body delivers before it ends, cleanly or
      not, and how the final write goes. */
  datatype Attempt = Attempt(pieces: seq<Bytes>, clean: bool, pauses: nat, breaks: bool)

  /** The content from `offset` on, and exactly that, is what one response delivers. */
  predicate Delivers(content: Bytes, offset: nat, attempt: Attempt) {
    var bytes := Concat(attempt.pieces);
    offset + |bytes| <= |content| && content[offset..offset + |bytes|] == bytes
  }

  /** Responses that each carry the content from the offset they were asked for. */
  predicate Serves(content: Bytes, offset: nat, attempts: seq<Attempt>)
    decreases |attempts|
  {
    attempts == [] ||
    (&& Delivers(content, offset, attempts[0])
     && Serves(content, offset + |Concat(attempts[0].pieces)|, attempts[1..]))
  }

  /** Where each request resumes: right after everything received before it. */
  function ResumeAt(offset: nat, attempts: seq<Attempt>, i: nat): nat
    requires i <= |attempts|
    decreases i
  {
    if i == 0 then offset else ResumeAt(offset, attempts, i - 1) + |Concat(attempts[i - 1].pieces)|
  }

  lemma {:induction false} ServesAt(content: Bytes, offset: nat, attempts: seq<Attempt>, i: nat)
    requires Serves(content, offset, attempts) && i <= |attempts|
    ensures Serves(content, ResumeAt(offset, attempts, i), attempts[i..])
    decreases i
  {
    if i == 0 {
      assert attempts[0..] == attempts;
    } else {
      ServesAt(content, offset, attempts, i - 1);
      assert attempts[i - 1..][1..] == attempts[i..];
    }
  }

  datatype DownloadOutcome = Downloaded | Failed | OutOfAttempts

  lemma NothingReceived(offset: nat, attempts: seq<Attempt>)
    ensures ResumeAt(offset, attempts, 0) == offset
  {
  }

  lemma NextServes(content: Bytes, offset: nat, attempts: seq<Attempt>, i: nat)
    requires Serves(content, offset, attempts) && i < |attempts|
    ensures Delivers(content, ResumeAt(offset, attempts, i), attempts[i])
    ensures ResumeAt(offset, attempts, i + 1) == ResumeAt(offset, attempts, i) + |Concat(attempts[i].pieces)|
  {
    ServesAt(content, offset, attempts, i);
    assert attempts[i..][0] == attempts[i];
  }

  lemma {:induction false} ServesWithin(content: Bytes, offset: nat, attempts: seq<Attempt>, i: nat)
    requires Serves(content, offset, attempts) && offset <= |content| && i <= |attempts|
    ensures ResumeAt(offset, attempts, i) <= |content|
    decreases i
  {
    if i > 0 {
      ServesAt(content, offset, attempts, i - 1);
      assert attempts[i - 1..][0] == attempts[i - 1];
    }
  }

  /** One request: everything received is kept, and a clean end must leave the whole file. */
  method TryDownload(file: DecryptedFile, ghost content: Bytes, attempt: Attempt)
    returns (range: string, outcome: Option<DownloadOutcome>)
    requires file.Holds(content) && file.state.Unwritten?
    requires Delivers(content, file.Offset(), attempt)
    modifies file
    ensures file.Holds(content)
    ensures range == PrintRange(old(file.Offset()))
    ensures outcome.None? <==> !attempt.clean
    ensures !attempt.clean ==> file.state == Unwritten(old(file.state).data + Concat(attempt.pieces))
    ensures outcome == Some(Downloaded) ==> file.state == Complete
    ensures outcome == Some(Downloaded) <==>
      attempt.clean && !attempt.breaks && old(file.Offset()) + |Concat(attempt.pieces)| == file.fileSize
    ensures outcome != Some(OutOfAttempts)
  {
    range := PrintRange(file.Offset());
    ReceiveBody(file, content, attempt.pieces);
    if !attempt.clean {
      return range, None;
    }
    var flushed := file.Flush(attempt.pauses, attempt.breaks);
    if !flushed {
      return range, Some(Failed);
    }
    var closed := file.PollClose(if attempt.breaks then Broken else Done);
    outcome := Some(if closed == Closed then Downloaded else Failed);
  }

  /** Downloads into `file`, resuming after each failed response from what is held. `ranges`
      are the range headers it sends. */
  method DownloadContent(file: DecryptedFile, ghost content: Bytes, attempts: seq<Attempt>)
    returns (ranges: seq<string>, outcome: DownloadOutcome)
    requires file.Holds(content) && file.state.Unwritten?
    requires Serves(content, file.Offset(), attempts)
    modifies file
    ensures file.Holds(content)
    ensures |ranges| <= |attempts|
    ensures forall i :: 0 <= i < |ranges| ==> ranges[i] == PrintRange(ResumeAt(old(file.Offset()), attempts, i))
    ensures forall i :: 0 <= i < |ranges| - 1 ==> !attempts[i].clean
    ensures outcome == Downloaded ==> file.state == Complete && file.decrypted == [content]
    ensures outcome == Downloaded <==>
      ranges != [] && attempts[|ranges| - 1].clean && !attempts[|ranges| - 1].breaks
      && ResumeAt(old(file.Offset()), attempts, |ranges|) == |content|
    ensures outcome == OutOfAttempts <==> forall i :: 0 <= i < |attempts| ==> !attempts[i].clean
    ensures outcome == OutOfAttempts ==>
      && |ranges| == |attempts|
      && ResumeAt(old(file.Offset()), attempts, |attempts|) <= |content|
      && file.state == Unwritten(content[..ResumeAt(old(file.Offset()), attempts, |attempts|)])
  {
    hide Serves, Delivers, Concat, PrintRange, ResumeAt;
    ranges := [];
    ghost var start := file.Offset();
    NothingReceived(start, attempts);
    for n := 0 to |attempts|
      invariant file.Holds(content) && file.state.Unwritten?
      invariant file.Offset() == ResumeAt(start, attempts, n)
      invariant |ranges| == n && forall i :: 0 <= i < n ==> !attempts[i].clean
      invariant forall i :: 0 <= i < n ==> ranges[i] == PrintRange(ResumeAt(start, attempts, i))
    {
      NextServes(content, start, attempts, n);
      var range, ended := TryDownload(file, content, attempts[n]);
      ranges := ranges + [range];
      if ended.Some? {
        return ranges, ended.value;
      }
    }
    ServesWithin(content, start, attempts, |attempts|);
    outcome := OutOfAttempts;
  }

  /** Writes a response body piece by piece. */
  method ReceiveBody(file: DecryptedFile, ghost content: Bytes, pieces: seq<Bytes>)
    requires file.Holds(content) && file.state.Unwritten?
    requires file.Offset() + |Concat(pieces)| <= |content|
    requires content[file.Offset()..file.Offset() + |Concat(pieces)|] == Concat(pieces)
    modifies file`state
    ensures file.Holds(content)
    ensures file.state == Unwritten(old(file.state).data + Concat(pieces))
  {
    ghost var start := file.state.data;
    assert Concat(pieces[..0]) == [];
    for i := 0 to |pieces|
      invariant file.state == Unwritten(start + Concat(pieces[..i]))
    {
      var ok := file.WriteAll(pieces[i]);
      assert pieces[..i + 1] == pieces[..i] + [pieces[i]];
      ConcatAppend(pieces[..i], pieces[i]);
      assert ok;
    }
    assert pieces[..|pieces|] == pieces;
  }
}
