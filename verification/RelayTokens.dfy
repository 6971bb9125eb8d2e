// Tokens are given out once: a relay run serves its session a list of commands in which no
// token starts twice, so what is proved of stale tokens over runs of a session holds here.

module RelayTokens {
  import opened Base
  import opened RelaySession
  import opened Effects
  import opened SessionInvariant
  import opened SessionTheorems
  import opened Api
  import opened RelaySystem
  import opened RelayTheorems
  import opened RelayUploads
  import Range

  // ----- A relay run is a session run -----

  /** The command this action has the session serve, if any. */
  function ServedBy(s: System, action: Action): seq<Command> {
    if action.Serve? && s.running && s.mailbox != [] then [s.mailbox[0]] else []
  }

  /** The commands a run of the relay has its session serve. */
  ghost function ServedAlong(content: Bytes, s: System, actions: seq<Action>): seq<Command>
    decreases |actions|
  {
    if actions == [] then []
    else ServedBy(s, actions[0]) + ServedAlong(content, Apply(content, s, actions[0]), actions[1..])
  }

  lemma ApplyServes(content: Bytes, s: System, action: Action)
    ensures ServedBy(s, action) == [] ==>
      && Apply(content, s, action).session == s.session && Apply(content, s, action).running == s.running
      && Apply(content, s, action).log == s.log
    ensures ServedBy(s, action) != [] ==>
      var outcome := Step(s.session, s.mailbox[0]);
      && Apply(content, s, action).session == outcome.state && Apply(content, s, action).running == !outcome.stop
      && Apply(content, s, action).log == s.log + outcome.effects
  {
    hide Apply, Step;
    ApplyLog(content, s, action);
    if action.Serve? { ApplyServe(content, s); } else { ApplySession(content, s, action); }
  }

  lemma {:induction false} StoppedServesNothing(content: Bytes, s: System, actions: seq<Action>)
    requires !s.running
    ensures ServedAlong(content, s, actions) == []
    ensures Exec(content, s, actions).session == s.session && !Exec(content, s, actions).running
    ensures Exec(content, s, actions).log == s.log
    decreases |actions|
  {
    hide Apply;
    if actions != [] {
      ApplyServes(content, s, actions[0]);
      StoppedServesNothing(content, Apply(content, s, actions[0]), actions[1..]);
    }
  }

  /** Whatever else goes on, the session of a relay run does what it does when it is given the
      commands served, one after the other. */
  lemma {:induction false} ExecRuns(content: Bytes, s: System, actions: seq<Action>)
    requires s.running
    ensures
      var t, run := Exec(content, s, actions), Run(s.session, ServedAlong(content, s, actions));
      t.session == run.state && t.running == !run.stop && t.log == s.log + run.effects
    decreases |actions|
  {
    hide Apply, Step;
    if actions != [] {
      var next := Apply(content, s, actions[0]);
      var rest := ServedAlong(content, next, actions[1..]);
      ApplyServes(content, s, actions[0]);
      if ServedBy(s, actions[0]) == [] {
        ExecRuns(content, next, actions[1..]);
        assert [] + rest == rest;
      } else {
        assert ([s.mailbox[0]] + rest)[1..] == rest;
        var effects := Step(s.session, s.mailbox[0]).effects;
        var later := Run(next.session, rest).effects;
        assert (s.log + effects) + later == s.log + (effects + later);
        if next.running {
          ExecRuns(content, next, actions[1..]);
        } else {
          StoppedServesNothing(content, next, actions[1..]);
        }
      }
    }
  }

  // ----- No token starts twice -----

  /** How often a token's start is in the mailbox. */
  function StartsIn(mailbox: seq<Command>, token: Token): nat {
    if mailbox == [] then 0 else (if Starts(mailbox[0], token) then 1 else 0) + StartsIn(mailbox[1..], token)
  }

  lemma {:induction false} StartsInAppend(mailbox: seq<Command>, command: Command, token: Token)
    ensures StartsIn(mailbox + [command], token) == StartsIn(mailbox, token) + if Starts(command, token) then 1 else 0
  {
    if mailbox == [] {
      assert mailbox + [command] == [command];
      assert StartsIn([command][1..], token) == 0;
    } else {
      assert (mailbox + [command])[1..] == mailbox[1..] + [command];
      StartsInAppend(mailbox[1..], command, token);
    }
  }

  /** The only token this command can start. */
  ghost predicate StartsOnly(command: Command, next: Token) {
    forall token :: Starts(command, token) ==> token == next
  }

  /** At most one command more is in the mailbox, and it starts nothing but the next token. */
  ghost predicate Posts(s: System, t: System) {
    && s.nextToken <= t.nextToken
    && (t.mailbox == s.mailbox
        || (t.mailbox != [] && t.mailbox == s.mailbox + [t.mailbox[|t.mailbox| - 1]]
            && StartsOnly(t.mailbox[|t.mailbox| - 1], s.nextToken)
            && (Starts(t.mailbox[|t.mailbox| - 1], s.nextToken) ==> s.nextToken < t.nextToken)))
  }

  lemma AnswerPosts(s: System, token: Token, answer: UploadResult)
    requires LiveUpload(s, token)
    ensures Posts(s, OnUploadAnswer(s, token, s.uploads[token], answer))
  {
    hide Chunked, UploadErrorResponse;
  }

  lemma EndPosts(s: System, token: Token, event: DownloadEvent)
    requires token in s.downloads
    ensures Posts(s, EndDownload(s, token, s.downloads[token]))
    ensures Posts(s, OnDownloadEvent(s, token, s.downloads[token], event))
  {
  }

  lemma UploadEndPosts(s: System, token: Token)
    requires LiveUpload(s, token)
    ensures Posts(s, EndUpload(s, token, s.uploads[token], None))
    ensures Posts(s, CallNext(s, token, s.uploads[token], Sending))
  {
  }

  /** An action posts at most one command, and starts nothing but the next token. */
  lemma ApplyPosts(content: Bytes, s: System, action: Action)
    requires !action.Serve?
    ensures Posts(s, Apply(content, s, action))
  {
    hide Range.UploadPositionOf, Range.DownloadPositionOf, AnswerFor, EventsTo, Project, Honest, Concat, OnServe;
    hide OnUploadAnswer, OnDownloadEvent, EndDownload, EndUpload, CallNext, Chunked;
    match action
    case UploadAnswered(token) =>
      if LiveUpload(s, token) {
        forall answer ensures Posts(s, OnUploadAnswer(s, token, s.uploads[token], answer)) {
          AnswerPosts(s, token, answer);
        }
      }
    case UploadBodyReady(token) => if LiveUpload(s, token) { UploadEndPosts(s, token); }
    case UploadDropped(token) => if LiveUpload(s, token) { UploadEndPosts(s, token); }
    case DownloadPolled(token) =>
      if token in s.downloads {
        forall event ensures Posts(s, OnDownloadEvent(s, token, s.downloads[token], event)) {
          EndPosts(s, token, event);
        }
      }
    case DownloadDropped(token) => if token in s.downloads { EndPosts(s, token, DownloadEvent.ConnectionReplaced); }
    case _ =>
  }

  lemma ApplyStarts(content: Bytes, s: System, action: Action, token: Token)
    ensures
      var t := Apply(content, s, action);
      && s.nextToken <= t.nextToken
      && StartsIn(t.mailbox, token)
         <= StartsIn(s.mailbox, token) + if token == s.nextToken < t.nextToken then 1 else 0
  {
    hide Apply, Step, Starts;
    var t := Apply(content, s, action);
    if action.Serve? {
      ApplyServe(content, s);
    } else {
      ApplyPosts(content, s, action);
      if t.mailbox != s.mailbox {
        StartsInAppend(s.mailbox, t.mailbox[|t.mailbox| - 1], token);
      }
    }
  }

  ghost predicate StartsOnce(s: System) {
    forall token: Token :: StartsIn(s.mailbox, token) <= if token < s.nextToken then 1 else 0
  }

  lemma {:induction false} ExecStartsOnce(content: Bytes, s: System, actions: seq<Action>)
    requires StartsOnce(s)
    ensures StartsOnce(Exec(content, s, actions))
    decreases |actions|
  {
    hide Apply, StartsIn;
    if actions != [] {
      forall token: Token
        ensures StartsIn(Apply(content, s, actions[0]).mailbox, token)
             <= if token < Apply(content, s, actions[0]).nextToken then 1 else 0
      {
        ApplyStarts(content, s, actions[0], token);
      }
      ExecStartsOnce(content, Apply(content, s, actions[0]), actions[1..]);
    }
  }

  /** The token has been given out, and its start is behind it. */
  predicate Gone(s: System, token: Token) {
    token < s.nextToken && StartsIn(s.mailbox, token) == 0
  }

  /** Serving a token's start puts it behind the token, over any run of the relay. */
  lemma ServedStartIsGone(content: Bytes, metadata: string, actions: seq<Action>, token: Token)
    ensures
      var s := Exec(content, Start(metadata), actions);
      s.running && s.mailbox != [] && Starts(s.mailbox[0], token) ==> Gone(OnServe(s), token)
  {
    hide Exec, Apply, Step, Starts;
    var s := Exec(content, Start(metadata), actions);
    ExecStartsOnce(content, Start(metadata), actions);
    assert StartsIn(s.mailbox, token) <= if token < s.nextToken then 1 else 0;
  }

  /** From then on, no action brings it back, and the session is served no start of it. */
  lemma {:induction false} GoneStaysGone(content: Bytes, s: System, actions: seq<Action>, token: Token)
    requires Gone(s, token)
    ensures Gone(Exec(content, s, actions), token)
    ensures forall c <- ServedAlong(content, s, actions) :: !Starts(c, token)
    decreases |actions|
  {
    hide Apply, Starts;
    if actions != [] {
      ApplyStarts(content, s, actions[0], token);
      GoneStaysGone(content, Apply(content, s, actions[0]), actions[1..], token);
    }
  }

  /** Once a token's start has been served and no peer carries it any more, nothing the relay
      ever does makes its data, flushes and disconnects count: struck out of what the session
      is served, they leave every other command served identically, message by message, and
      the same session. */
  lemma RetiredTokensAreInert(content: Bytes, s: System, actions: seq<Action>, token: Token)
    requires s.running && Gone(s, token) && Retired(s.session, token)
    ensures
      var t, commands := Exec(content, s, actions), ServedAlong(content, s, actions);
      var struck := Run(s.session, Erase(commands, token));
      && t.session == struck.state && t.running == !struck.stop
      && Served(s.session, Erase(commands, token)) == EraseServed(Served(s.session, commands), token)
  {
    hide Exec, Step, ServedAlong, Served, EraseServed, Erase, Run;
    GoneStaysGone(content, s, actions, token);
    ExecRuns(content, s, actions);
    StaleTokensAreInert(s.session, ServedAlong(content, s, actions), token);
  }
}
