// What holds of whole runs of one session, whatever commands arrive.

module SessionTheorems {
  import opened Base
  import opened RelaySession
  import opened Effects
  import opened SessionReadings
  import opened SessionSteps
  import opened SessionInvariant

  // ----- Where an uploader may start -----

  /** The real start gives the answer of the dry run, although it evicts the current uploader
      before it looks. */
  lemma DryRunAgrees(s: Session, token: Token, position: Position, reply: Reply)
    ensures
      var effects := OnStartUpload(s, token, position, reply).effects;
      && effects != []
      && effects[|effects| - 1] == Answer(reply, CheckStart(s, position))
      && (OnStartUpload(s, token, position, reply).state.IsUploader(token) <==> CheckStart(s, position).Accepted?)
  {
    assert CheckStart(Evict(s).state, position) == CheckStart(s, position);
  }

  /** Being refused with an offset is an offer: starting there is accepted, both in the state
      that refused and in the state the refused start leaves behind. */
  lemma RefusalsConverge(metadata: string, commands: seq<Command>, position: Position, token: Token, reply: Reply)
    requires !Run(Initial(metadata), commands).stop
    ensures
      var s := Run(Initial(metadata), commands).state;
      var refused := CheckStart(s, position);
      refused.Refused? ==>
        && refused.error.Position?
        && CheckStart(s, refused.error.position).Accepted?
        && CheckStart(OnStartUpload(s, token, position, reply).state, refused.error.position).Accepted?
  {
    ReachedIsConsistent(metadata, commands);
  }

  /** When a chunk passes straight through, the downloader is where the uploader is. */
  lemma HandoverPositionsAgree(metadata: string, commands: seq<Command>, token: Token)
    requires !Run(Initial(metadata), commands).stop
    ensures
      var s := Run(Initial(metadata), commands).state;
      HandsOver(s, token) ==> s.downloader.position == s.uploader.value.position
  {
    ReachedIsConsistent(metadata, commands);
  }

  // ----- Finishing -----

  /** A finished session that goes on keeps an uploader, but for one case: a start refused
      because a chunk is held evicts the uploader and registers nobody. */
  lemma FinishedLosesUploader(s: Session, command: Command)
    requires Consistent(s) && s.downloader.Finished? && s.uploader.Some?
    requires !Step(s, command).stop && Step(s, command).state.downloader.Finished?
    ensures Step(s, command).state.uploader.None? <==>
      command.StartUpload? && s.pending.Data? && command.position != s.pending.position + s.pending.size
  {
    match command
    case StartUpload(_, position, _) => assert CheckStart(Evict(s).state, position) == CheckStart(s, position);
    case _ =>
  }

  /** Finished is left exactly by a downloader connecting, which also drops a queued error. */
  lemma FinishedIsLeft(s: Session, command: Command)
    requires s.downloader.Finished?
    ensures !Step(s, command).state.downloader.Finished? <==> command.StartDownload?
    ensures command.StartDownload? ==> Step(s, command).state.pending != Error(UploadError.Finished)
  {
  }

  /** A command of the uploader's own: a call, or its leaving. */
  predicate OwnCommand(command: Command, token: Token) {
    (command.StartUpload? || command.UploadData? || command.FlushUpload? || command.Disconnected?)
    && command.token == token
  }

  /** The uploader is registered, and its next call will hear of the finish. */
  predicate FinishQueued(s: Session, token: Token) {
    s.IsUploader(token) && s.pending == Error(UploadError.Finished)
  }

  predicate Displaces(command: Command) {
    command.StartDownload? || command.StartUpload?
  }

  /** A finish still unheard is forgotten exactly when another peer connects. */
  lemma StepKeepsFinishQueued(s: Session, command: Command, token: Token)
    requires Consistent(s) && FinishQueued(s, token)
    requires !OwnCommand(command, token) && !command.FinishDownload?
    ensures !Step(s, command).stop
    ensures FinishQueued(Step(s, command).state, token) <==> !Displaces(command)
  {
  }

  /** A finish that is not queued is not queued again but by another finish. */
  lemma StepKeepsFinishForgotten(s: Session, command: Command, token: Token)
    requires !FinishQueued(s, token) && !OwnCommand(command, token) && !command.FinishDownload?
    ensures !FinishQueued(Step(s, command).state, token)
  {
  }

  lemma {:induction false} FinishStaysForgotten(s: Session, commands: seq<Command>, token: Token)
    requires !FinishQueued(s, token)
    requires forall c <- commands :: !OwnCommand(c, token) && !c.FinishDownload?
    ensures !FinishQueued(Run(s, commands).state, token)
    decreases |commands|
  {
    if commands != [] {
      StepKeepsFinishForgotten(s, commands[0], token);
      FinishStaysForgotten(Step(s, commands[0]).state, commands[1..], token);
    }
  }

  /** Over any run in which the uploader does nothing and nobody finishes again. */
  lemma {:induction false} FinishWaits(s: Session, commands: seq<Command>, token: Token)
    requires Consistent(s) && FinishQueued(s, token)
    requires forall c <- commands :: !OwnCommand(c, token) && !c.FinishDownload?
    ensures FinishQueued(Run(s, commands).state, token) <==> forall c <- commands :: !Displaces(c)
    ensures (forall c <- commands :: !Displaces(c)) ==> !Run(s, commands).stop
    decreases |commands|
  {
    hide Consistent, Step, OwnCommand;
    if commands != [] {
      var first := Step(s, commands[0]);
      StepKeepsFinishQueued(s, commands[0], token);
      assert commands == [commands[0]] + commands[1..];
      if Displaces(commands[0]) {
        FinishStaysForgotten(first.state, commands[1..], token);
      } else {
        StepKeepsConsistent(s, commands[0]);
        FinishWaits(first.state, commands[1..], token);
      }
    }
  }

  /** The finish answers one of the uploader's calls at once. */
  ghost predicate ToldAtOnce(s: Session, finish: Reply, token: Token) {
    exists call: nat ::
      Refused(UploadError.Finished) in AnswersTo(Step(s, FinishDownload(finish)).effects, Reply(token, call))
  }

  lemma FinishAnswersWaiter(s: Session, finish: Reply, token: Token)
    requires s.IsUploader(token)
    ensures ToldAtOnce(s, finish, token)
      <==> s.pending.Data? && s.pending.waiter.Some? && s.pending.waiter.value.connection == token
  {
    hide Step;
    forall call: nat
      ensures AnswersTo(Step(s, FinishDownload(finish)).effects, Reply(token, call))
           == Answers(s, FinishDownload(finish), Reply(token, call))
    {
      StepAnswers(s, FinishDownload(finish), Reply(token, call));
    }
    if s.pending.Data? && s.pending.waiter.Some? && s.pending.waiter.value.connection == token {
      var call := s.pending.waiter.value.call;
      assert Reply(token, call) == s.pending.waiter.value;
      assert Refused(UploadError.Finished) in Answers(s, FinishDownload(finish), Reply(token, call));
    }
  }

  lemma NextCallHears(s: Session, call: Command, token: Token)
    requires (call.FlushUpload? || call.UploadData?) && call.token == token
    ensures Refused(UploadError.Finished) in AnswersTo(Step(s, call).effects, call.reply) <==> FinishQueued(s, token)
  {
    hide Step;
    StepAnswers(s, call, call.reply);
  }

  /** When a registered uploader hears of a finish. With a chunk held, the session ends, and
      the uploader hears exactly if the chunk's waiter is its own; with none, it hears at its
      next call, unless another downloader or uploader connects before that. */
  lemma FinishTellsUploader(s: Session, finish: Reply, between: seq<Command>, call: Command, token: Token)
    requires Consistent(s) && s.IsUploader(token)
    requires forall c <- between :: !OwnCommand(c, token) && !c.FinishDownload?
    requires (call.FlushUpload? || call.UploadData?) && call.token == token
    ensures
      var finished := Step(s, FinishDownload(finish));
      var later := Run(finished.state, between);
      && (finished.stop <==> s.pending.Data?)
      && (ToldAtOnce(s, finish, token)
          <==> s.pending.Data? && s.pending.waiter.Some? && s.pending.waiter.value.connection == token)
      && (!finished.stop && !later.stop
          && Refused(UploadError.Finished) in AnswersTo(Step(later.state, call).effects, call.reply)
          <==> !s.pending.Data? && forall c <- between :: !Displaces(c))
  {
    hide ToldAtOnce, AnswersTo, Run, OwnCommand, Displaces, Consistent;
    var finished := Step(s, FinishDownload(finish));
    FinishAnswersWaiter(s, finish, token);
    NextCallHears(Run(finished.state, between).state, call, token);
    if !s.pending.Data? {
      StepKeepsConsistent(s, FinishDownload(finish));
      FinishWaits(finished.state, between, token);
    }
  }

  /** Serving one more command first puts its answers first. */
  lemma AnswersAlong(s: Session, command: Command, next: Session, rest: seq<Command>, reply: Reply)
    requires Step(s, command).state == next && !Step(s, command).stop
    ensures Run(s, [command] + rest).stop == Run(next, rest).stop
    ensures AnswersTo(Run(s, [command] + rest).effects, reply)
         == Answers(s, command, reply) + AnswersTo(Run(next, rest).effects, reply)
  {
    hide Step, Answers;
    assert ([command] + rest)[1..] == rest;
    StepAnswers(s, command, reply);
    ProjectAppend(Step(s, command).effects, Run(next, rest).effects, AnswerTo(reply));
  }

  lemma AnswersLast(s: Session, command: Command, reply: Reply)
    ensures Run(s, [command]).stop == Step(s, command).stop
    ensures AnswersTo(Run(s, [command]).effects, reply) == Answers(s, command, reply)
  {
    hide Step, Answers;
    RunOne(s, command);
    StepAnswers(s, command, reply);
  }

  /** One way to miss it: a downloader connects before the uploader's next call, which is then
      accepted. */
  lemma FinishCanBeForgotten(metadata: string)
    ensures
      var commands := [
        StartUpload(1, 0, Reply(1, 0)), FinishDownload(Reply(2, 0)), StartDownload(3, 0, Reply(3, 0)),
        FlushUpload(1, Reply(1, 1))];
      AnswersTo(Run(Initial(metadata), commands).effects, Reply(1, 1)) == [Accepted]
  {
    hide Run, AnswersTo;
    var start, finish := StartUpload(1, 0, Reply(1, 0)), FinishDownload(Reply(2, 0));
    var join, flush := StartDownload(3, 0, Reply(3, 0)), FlushUpload(1, Reply(1, 1));
    var empty := Initial(metadata);
    var one := empty.(uploader := Some(Registration(1, 0)));
    var finished := one.(downloader := DownloaderSlot.Finished, pending := Error(UploadError.Finished));
    var joined := one.(downloader := Connected(3, 0));
    AnswersLast(joined, flush, Reply(1, 1));
    AnswersAlong(finished, join, joined, [flush], Reply(1, 1));
    AnswersAlong(one, finish, finished, [join] + [flush], Reply(1, 1));
    AnswersAlong(empty, start, one, [finish] + ([join] + [flush]), Reply(1, 1));
    assert [start] + ([finish] + ([join] + [flush])) == [start, finish, join, flush];
  }

  /** The other way: the uploader has just taken over from the one whose chunk is held, and
      the session ends without a word to it. */
  lemma FinishCanPassOver(metadata: string, call: nat)
    ensures
      var commands := [
        StartUpload(1, 0, Reply(1, 0)), FlushUpload(1, Reply(1, 1)), UploadData(1, Chunk.More([7]), Reply(1, 2)),
        StartUpload(2, 1, Reply(2, 0)), FinishDownload(Reply(3, 0))];
      && Run(Initial(metadata), commands).stop
      && AnswersTo(Run(Initial(metadata), commands).effects, Reply(2, call)) == if call == 0 then [Accepted] else []
  {
    hide Run, AnswersTo;
    var start, flush := StartUpload(1, 0, Reply(1, 0)), FlushUpload(1, Reply(1, 1));
    var send, take := UploadData(1, Chunk.More([7]), Reply(1, 2)), StartUpload(2, 1, Reply(2, 0));
    var finish := FinishDownload(Reply(3, 0));
    var empty := Initial(metadata);
    var one := empty.(uploader := Some(Registration(1, 0)));
    var held := one.(uploader := Some(Registration(1, 1)), pending := Data(Chunk.More([7]), Some(Reply(1, 2)), 0, 1));
    var two := held.(uploader := Some(Registration(2, 1)), pending := held.pending.(waiter := None));
    AnswersLast(two, finish, Reply(2, call));
    AnswersAlong(held, take, two, [finish], Reply(2, call));
    AnswersAlong(one, send, held, [take] + [finish], Reply(2, call));
    AnswersAlong(one, flush, one, [send] + ([take] + [finish]), Reply(2, call));
    AnswersAlong(empty, start, one, [flush] + ([send] + ([take] + [finish])), Reply(2, call));
    assert [start] + ([flush] + ([send] + ([take] + [finish]))) == [start, flush, send, take, finish];
  }

  // ----- Progress acks -----

  lemma AckIsUploaderPosition(s: Session, command: Command)
    requires Consistent(s) && Acked(s, command).Some?
    ensures
      var after := Step(s, command).state;
      after.uploader.Some? ==> after.uploader.value.position == Acked(s, command).value
  {
  }

  /** `acks` climbs from `low` to `high`. */
  predicate Ascends(low: Position, acks: seq<Position>, high: Position)
    decreases |acks|
  {
    if acks == [] then low <= high else low <= acks[0] && Ascends(acks[0], acks[1..], high)
  }

  lemma UploaderStaysGone(s: Session, commands: seq<Command>, token: Token)
    requires !s.IsUploader(token)
    requires forall c <- commands :: !Restarts(c, token)
    ensures !Run(s, commands).state.IsUploader(token)
    decreases |commands|
  {
    if commands != [] {
      StepKeepsUploaderGone(s, commands[0], token);
      UploaderStaysGone(Step(s, commands[0]).state, commands[1..], token);
    }
  }

  lemma UploaderMovesForward(s: Session, command: Command, token: Token)
    requires s.IsUploader(token) && Step(s, command).state.IsUploader(token) && !Restarts(command, token)
    ensures s.uploader.value.position <= Step(s, command).state.uploader.value.position
  {
  }

  /** Within one uploader's tenure the acknowledged offsets never decrease, and never pass
      the uploader. */
  lemma {:induction false} TenureAcksAscend(s: Session, commands: seq<Command>, token: Token)
    requires Consistent(s) && s.IsUploader(token)
    requires forall c <- commands :: !Restarts(c, token)
    requires !Run(s, commands).stop && Run(s, commands).state.IsUploader(token)
    ensures Ascends(s.uploader.value.position, Acks(Run(s, commands).effects),
                    Run(s, commands).state.uploader.value.position)
    decreases |commands|
  {
    if commands != [] {
      var command := commands[0];
      var first := Step(s, command);
      var rest := Run(first.state, commands[1..]);
      if !first.state.IsUploader(token) {
        UploaderStaysGone(first.state, commands[1..], token);
      }
      UploaderMovesForward(s, command, token);
      StepKeepsConsistent(s, command);
      TenureAcksAscend(first.state, commands[1..], token);
      ProjectAppend(first.effects, rest.effects, AckOf());
      StepAcks(s, command);
      if Acked(s, command).Some? {
        AckIsUploaderPosition(s, command);
        assert (AsSeq(Acked(s, command)) + Acks(rest.effects))[1..] == Acks(rest.effects);
      } else {
        assert AsSeq(Acked(s, command)) + Acks(rest.effects) == Acks(rest.effects);
        AscendsFromLower(s.uploader.value.position, first.state.uploader.value.position, Acks(rest.effects),
                         rest.state.uploader.value.position);
      }
    }
  }

  lemma AscendsFromLower(lower: Position, low: Position, acks: seq<Position>, high: Position)
    requires lower <= low && Ascends(low, acks, high)
    ensures Ascends(lower, acks, high)
  {
  }

  // ----- Held chunks -----

  predicate SameHeldChunk(a: Pending, b: Pending) {
    a.Data? && b.Data? && a.chunk == b.chunk && a.position == b.position && a.size == b.size
  }

  lemma StepKeepsHeldChunk(s: Session, command: Command)
    requires Consistent(s) && s.pending.Data? && !command.StartDownload?
    ensures SameHeldChunk(s.pending, Step(s, command).state.pending)
    ensures Handed(s, command).None?
  {
  }

  /** A held chunk survives anything but a downloader connecting: uploaders replacing each
      other, flushing, sending and leaving, and a finish. Nothing is delivered meanwhile. */
  lemma {:induction false} HeldChunkWaits(s: Session, commands: seq<Command>)
    requires Consistent(s) && s.pending.Data?
    requires forall c <- commands :: !c.StartDownload?
    ensures SameHeldChunk(s.pending, Run(s, commands).state.pending)
    ensures ChunksOf(Run(s, commands).effects) == []
    decreases |commands|
  {
    if commands != [] {
      var first := Step(s, commands[0]);
      StepKeepsHeldChunk(s, commands[0]);
      StepChunks(s, commands[0]);
      if !first.stop {
        StepKeepsConsistent(s, commands[0]);
        HeldChunkWaits(first.state, commands[1..]);
        ProjectAppend(first.effects, Run(first.state, commands[1..]).effects, ChunkOf());
      }
    }
  }

  /** The first downloader to connect settles the chunk: it is that downloader's if it asked
      for exactly the chunk's position, and otherwise nobody gets it. */
  lemma HeldChunkMeetsDownloader(s: Session, before: seq<Command>, token: Token, position: Position, reply: Reply)
    requires Consistent(s) && s.pending.Data?
    requires forall c <- before :: !c.StartDownload?
    requires !Run(s, before).stop
    ensures
      var met := Run(s, before + [StartDownload(token, position, reply)]);
      && !met.state.pending.Data?
      && ChunksOf(met.effects) == (if position == s.pending.position then [s.pending.chunk] else [])
      && met.state.downloader ==
         Connected(token, if position == s.pending.position then position + s.pending.size else position)
  {
    hide Consistent, Run, Project;
    var start := StartDownload(token, position, reply);
    var waited := Run(s, before);
    HeldChunkWaits(s, before);
    RunAppend(s, before, [start]);
    RunOne(waited.state, start);
    ProjectAppend(waited.effects, Step(waited.state, start).effects, ChunkOf());
    StepChunks(waited.state, start);
  }

  lemma RunOne(s: Session, command: Command)
    ensures Run(s, [command]) == Step(s, command)
  {
    assert [command][1..] == [];
    assert Step(s, command).effects + [] == Step(s, command).effects;
  }

  predicate Discards(s: Session, command: Command) {
    command.StartDownload? && s.pending.Data? && s.pending.position != command.position
  }

  function HeldChunk(s: Session): seq<Chunk> {
    if s.pending.Data? then [s.pending.chunk] else []
  }

  /** The chunks a run takes from uploaders without refusing them. */
  function AcceptedAlong(s: Session, commands: seq<Command>): seq<Chunk>
    decreases |commands|
  {
    if commands == [] then []
    else
      (if Accepts(s, commands[0]) then [commands[0].chunk] else [])
      + if Step(s, commands[0]).stop then [] else AcceptedAlong(Step(s, commands[0]).state, commands[1..])
  }

  /** The held chunks a run drops because a downloader connected elsewhere. */
  function DiscardedAlong(s: Session, commands: seq<Command>): seq<Chunk>
    decreases |commands|
  {
    if commands == [] then []
    else
      (if Discards(s, commands[0]) then [s.pending.chunk] else [])
      + if Step(s, commands[0]).stop then [] else DiscardedAlong(Step(s, commands[0]).state, commands[1..])
  }

  lemma StepConservesChunks(s: Session, command: Command)
    ensures
      HeldChunk(s) + (if Accepts(s, command) then [command.chunk] else [])
      == ChunksOf(Step(s, command).effects) + (if Discards(s, command) then [s.pending.chunk] else [])
         + HeldChunk(Step(s, command).state)
  {
    StepChunks(s, command);
  }

  /** Every accepted chunk is delivered once, discarded once, or still held: never lost in
      any other way, and never delivered twice. */
  lemma {:induction false} ChunksAreConserved(s: Session, commands: seq<Command>)
    ensures
      multiset(HeldChunk(s)) + multiset(AcceptedAlong(s, commands))
      == multiset(ChunksOf(Run(s, commands).effects)) + multiset(DiscardedAlong(s, commands))
         + multiset(HeldChunk(Run(s, commands).state))
    decreases |commands|
  {
    if commands != [] {
      var first := Step(s, commands[0]);
      StepConservesChunks(s, commands[0]);
      var accepted := if Accepts(s, commands[0]) then [commands[0].chunk] else [];
      var discarded := if Discards(s, commands[0]) then [s.pending.chunk] else [];
      var delivered := ChunksOf(first.effects);
      assert multiset(HeldChunk(s) + accepted) == multiset(delivered + discarded + HeldChunk(first.state));
      if first.stop {
        assert AcceptedAlong(s, commands) == accepted && DiscardedAlong(s, commands) == discarded;
      } else {
        var rest := Run(first.state, commands[1..]);
        ChunksAreConserved(first.state, commands[1..]);
        ProjectAppend(first.effects, rest.effects, ChunkOf());
        SpliceChunks(HeldChunk(s), accepted, delivered, discarded, HeldChunk(first.state),
                     AcceptedAlong(first.state, commands[1..]), ChunksOf(rest.effects),
                     DiscardedAlong(first.state, commands[1..]), HeldChunk(rest.state));
      }
    }
  }

  /** Two conserving stretches, one after the other, conserve. */
  lemma SpliceChunks(h0: seq<Chunk>, a1: seq<Chunk>, d1: seq<Chunk>, x1: seq<Chunk>, h1: seq<Chunk>,
                     a2: seq<Chunk>, d2: seq<Chunk>, x2: seq<Chunk>, h2: seq<Chunk>)
    requires multiset(h0 + a1) == multiset(d1 + x1 + h1)
    requires multiset(h1) + multiset(a2) == multiset(d2) + multiset(x2) + multiset(h2)
    ensures multiset(h0) + multiset(a1 + a2) == multiset(d1 + d2) + multiset(x1 + x2) + multiset(h2)
  {
    var H0, A1, D1, X1, H1 := multiset(h0), multiset(a1), multiset(d1), multiset(x1), multiset(h1);
    var A2, D2, X2, H2 := multiset(a2), multiset(d2), multiset(x2), multiset(h2);
    assert H0 + A1 == multiset(h0 + a1) == D1 + X1 + H1;
    calc {
      H0 + (A1 + A2);
      (H0 + A1) + A2;
      (D1 + X1) + (H1 + A2);
      (D1 + X1) + (D2 + X2 + H2);
      (D1 + D2) + (X1 + X2) + H2;
    }
    assert multiset(a1 + a2) == multiset(a1) + multiset(a2);
    assert multiset(d1 + d2) == multiset(d1) + multiset(d2);
    assert multiset(x1 + x2) == multiset(x1) + multiset(x2);
  }

  // ----- Stale tokens -----

  /** No connection of this session carries the token. */
  predicate Retired(s: Session, token: Token) {
    && !s.IsUploader(token)
    && !s.IsDownloader(token)
    && s.uploaderWs != Some(token)
    && s.downloaderWs != Some(token)
  }

  predicate Starts(command: Command, token: Token) {
    (command.StartDownload? || command.StartUpload? || command.StartWebsocket?) && command.token == token
  }

  predicate Stale(command: Command, token: Token) {
    (command.UploadData? || command.FlushUpload? || command.Disconnected?) && command.token == token
  }

  function Erase(commands: seq<Command>, token: Token): seq<Command> {
    if commands == [] then []
    else (if Stale(commands[0], token) then [] else [commands[0]]) + Erase(commands[1..], token)
  }

  /** One command served, with everything it put on a channel. */
  datatype Service = Service(command: Command, effects: seq<Effect>)

  function Served(s: Session, commands: seq<Command>): seq<Service>
    decreases |commands|
  {
    if commands == [] then []
    else
      var first := Step(s, commands[0]);
      [Service(commands[0], first.effects)] + if first.stop then [] else Served(first.state, commands[1..])
  }

  function EraseServed(services: seq<Service>, token: Token): seq<Service> {
    if services == [] then []
    else (if Stale(services[0].command, token) then [] else [services[0]]) + EraseServed(services[1..], token)
  }

  lemma StaleStepIsInert(s: Session, command: Command, token: Token)
    requires Retired(s, token) && Stale(command, token)
    ensures Step(s, command) ==
      Outcome(s, if command.Disconnected? then []
                 else [Answer(command.reply, Refused(UploadError.ConnectionReplaced))], false)
  {
  }

  lemma StepKeepsRetired(s: Session, command: Command, token: Token)
    requires Retired(s, token) && !Starts(command, token)
    ensures Retired(Step(s, command).state, token)
  {
  }

  /** Once a token is retired, and since tokens are never reissued, every later data, flush
      or disconnect carrying it might as well not have been sent: striking them all out of a
      run leaves every other command served identically, down to each message. */
  lemma {:induction false} StaleTokensAreInert(s: Session, commands: seq<Command>, token: Token)
    requires Retired(s, token)
    requires forall c <- commands :: !Starts(c, token)
    ensures Served(s, Erase(commands, token)) == EraseServed(Served(s, commands), token)
    ensures Run(s, Erase(commands, token)).state == Run(s, commands).state
    ensures Run(s, Erase(commands, token)).stop == Run(s, commands).stop
    decreases |commands|
  {
    if commands != [] {
      var first := Step(s, commands[0]);
      StepKeepsRetired(s, commands[0], token);
      var services := Served(s, commands);
      var erased := Erase(commands, token);
      if first.stop {
        if Stale(commands[0], token) {
          StaleStepIsInert(s, commands[0], token);
        } else {
          assert services == [Service(commands[0], first.effects)];
          assert EraseServed(services, token) == services + EraseServed([], token);
          assert erased[0] == commands[0];
        }
      } else {
        StaleTokensAreInert(first.state, commands[1..], token);
        assert services[1..] == Served(first.state, commands[1..]);
        if Stale(commands[0], token) {
          StaleStepIsInert(s, commands[0], token);
          assert erased == Erase(commands[1..], token);
        } else {
          assert erased[0] == commands[0] && erased[1..] == Erase(commands[1..], token);
        }
      }
    }
  }

  // ----- Signalling frames -----

  /** A frame finds its peer absent and the held queue full. */
  predicate DropsFrame(s: Session, command: Command, to: Direction) {
    && command.WebsocketData? && command.direction != to
    && s.Ws(to).None? && |s.Held(to)| == 64
  }

  function FrameSent(command: Command, to: Direction): seq<Frame> {
    if command.WebsocketData? && command.direction != to then [command.frame] else []
  }

  /** The frames sent towards one peer, but for those dropped. */
  function KeptFrames(s: Session, commands: seq<Command>, to: Direction): seq<Frame>
    decreases |commands|
  {
    if commands == [] then []
    else
      (if DropsFrame(s, commands[0], to) then [] else FrameSent(commands[0], to))
      + if Step(s, commands[0]).stop then [] else KeptFrames(Step(s, commands[0]).state, commands[1..], to)
  }

  lemma StepConservesFrames(s: Session, command: Command, to: Direction)
    requires FramesFit(s, to)
    ensures FramesTo(Step(s, command).effects, to) + Step(s, command).state.Held(to)
         == s.Held(to) + (if DropsFrame(s, command, to) then [] else FrameSent(command, to))
  {
    StepFrames(s, command, to);
    HeldAfter(s, command, to);
  }

  lemma HeldAfter(s: Session, command: Command, to: Direction)
    requires FramesFit(s, to)
    ensures Signalled(s, command, to) + Step(s, command).state.Held(to)
         == s.Held(to) + (if DropsFrame(s, command, to) then [] else FrameSent(command, to))
  {
    if !Signals(command) { HeldUnchanged(s, command, to); }
  }

  lemma HeldUnchanged(s: Session, command: Command, to: Direction)
    requires !Signals(command)
    ensures Step(s, command).state.Held(to) == s.Held(to)
  {
  }

  /** Frames handed over, followed by frames still held, are the frames sent, in order,
      without exactly those that met a full queue. */
  lemma {:induction false} FramesAreConserved(s: Session, commands: seq<Command>, to: Direction)
    requires Consistent(s)
    ensures FramesTo(Run(s, commands).effects, to) + Run(s, commands).state.Held(to)
         == s.Held(to) + KeptFrames(s, commands, to)
    decreases |commands|
  {
    if commands != [] {
      var first := Step(s, commands[0]);
      StepConservesFrames(s, commands[0], to);
      var kept := if DropsFrame(s, commands[0], to) then [] else FrameSent(commands[0], to);
      if first.stop {
        assert KeptFrames(s, commands, to) == kept;
      } else {
        var rest := Run(first.state, commands[1..]);
        StepKeepsConsistent(s, commands[0]);
        FramesAreConserved(first.state, commands[1..], to);
        ProjectAppend(first.effects, rest.effects, FrameTo(to));
        SpliceFrames(s.Held(to), kept, FramesTo(first.effects, to), first.state.Held(to),
                     KeptFrames(first.state, commands[1..], to), FramesTo(rest.effects, to), rest.state.Held(to));
      }
    }
  }

  lemma SpliceFrames(h0: seq<Frame>, k1: seq<Frame>, f1: seq<Frame>, h1: seq<Frame>,
                     k2: seq<Frame>, f2: seq<Frame>, h2: seq<Frame>)
    requires f1 + h1 == h0 + k1 && f2 + h2 == h1 + k2
    ensures (f1 + f2) + h2 == h0 + (k1 + k2)
  {
    calc {
      (f1 + f2) + h2;
      f1 + (f2 + h2);
      f1 + (h1 + k2);
      (f1 + h1) + k2;
      (h0 + k1) + k2;
      h0 + (k1 + k2);
    }
  }
}
