// What an upload request is told when it ends.

module RelayResponses {
  import opened Base
  import opened RelaySession
  import opened Effects
  import opened Api
  import opened RelaySystem
  import opened RelayInvariant
  import opened RelayTheorems
  import opened RelayUploads

  /** The response is what the last call's answer means; a request nobody answered any more is
      told that the session is not there. */
  ghost predicate ToldTruly(s: System, token: Token)
    requires token in s.uploads
  {
    var h := s.uploads[token];
    h.response.Some? ==>
      && !h.alive && h.calls >= 1
      && var answers := AnswersTo(s.log, LastReply(token, h));
         if answers == [] then h.response.value == NotFoundStatus && !s.running
         else Tells(h.response.value, answers[0])
  }

  ghost predicate AllToldTruly(s: System) {
    forall token <- s.uploads :: ToldTruly(s, token)
  }

  lemma EndedTells(h: UploadHandler, answer: UploadResult, response: Option<Response>)
    requires EndedOn(h, answer, response)
    ensures response.Some? && Tells(response.value, answer)
  {
  }

  /** An answer stays the first, and a session that is gone answers no more. */
  lemma AnswersStay(content: Bytes, s: System, action: Action, reply: Reply)
    ensures
      var was, now := AnswersTo(s.log, reply), AnswersTo(Apply(content, s, action).log, reply);
      && (was != [] ==> now != [] && now[0] == was[0])
      && (!s.running ==> now == was && !Apply(content, s, action).running)
  {
    hide Apply, Step;
    LogGrows(content, s, action);
    ApplyLog(content, s, action);
    var more := Apply(content, s, action).log[|s.log|..];
    assert Apply(content, s, action).log == s.log + more;
    ProjectAppend(s.log, more, AnswerTo(reply));
    if !s.running {
      if action.Serve? { ApplyServe(content, s); } else { ApplySession(content, s, action); }
    }
  }

  lemma ApplyTellsTruly(content: Bytes, s: System, action: Action, token: Token)
    requires Inv(content, s) && AllToldTruly(s) && token in Apply(content, s, action).uploads
    ensures ToldTruly(Apply(content, s, action), token)
  {
    hide Inv, Apply, AnswersTo, Tells;
    var t := Apply(content, s, action);
    if t.uploads[token].response.Some? {
      ApplyResponse(content, s, action, token);
      assert ToldTruly(s, token);
      ApplyEnds(content, s, action, token);
      var reply := LastReply(token, t.uploads[token]);
      AnswersStay(content, s, action, reply);
      if s.uploads[token].response != t.uploads[token].response {
        EndedTells(s.uploads[token], AnswerFor(s, reply).value, t.uploads[token].response);
        if AnswersTo(s.log, reply) == [] { NotFoundTells(t.uploads[token].response.value); }
      }
    }
  }

  lemma NotFoundTells(response: Response)
    requires Tells(response, Refused(NotFound))
    ensures response == NotFoundStatus
  {
  }

  lemma {:induction false} ExecTellsTruly(content: Bytes, s: System, actions: seq<Action>)
    requires |content| < U64_LIMIT && Inv(content, s) && AllToldTruly(s)
    ensures AllToldTruly(Exec(content, s, actions))
    decreases |actions|
  {
    hide Inv, Apply, ToldTruly;
    if actions != [] {
      ApplyKeepsInv(content, s, actions[0]);
      forall token | token in Apply(content, s, actions[0]).uploads
        ensures ToldTruly(Apply(content, s, actions[0]), token)
      {
        ApplyTellsTruly(content, s, actions[0], token);
      }
      ExecTellsTruly(content, Apply(content, s, actions[0]), actions[1..]);
    }
  }

  /** In every reachable state, an upload that has its response was told what its last call was
      answered: in particular ok when the download was finished, the place to go on from when it
      was sent elsewhere, and not found only if it was told so or never answered by a session
      that is gone. */
  lemma ResponsesAreTrue(content: Bytes, s: System, token: Token)
    requires |content| < U64_LIMIT && Reachable(content, s)
    requires token in s.uploads && s.uploads[token].response.Some?
    ensures s.uploads[token].calls >= 1 && !s.uploads[token].alive
    ensures
      var response := s.uploads[token].response.value;
      var answers := AnswersTo(s.log, LastReply(token, s.uploads[token]));
      if answers == [] then response == NotFoundStatus && !s.running else Tells(response, answers[0])
  {
    hide Inv, Exec, ToldTruly;
    var metadata: string, actions: seq<Action> :| s == Exec(content, Start(metadata), actions);
    StartIsInv(content, metadata);
    ExecTellsTruly(content, Start(metadata), actions);
    assert ToldTruly(s, token);
    TrulyMeans(s, token);
  }

  lemma TrulyMeans(s: System, token: Token)
    requires token in s.uploads && ToldTruly(s, token) && s.uploads[token].response.Some?
    ensures s.uploads[token].calls >= 1 && !s.uploads[token].alive
    ensures
      var response := s.uploads[token].response.value;
      var answers := AnswersTo(s.log, LastReply(token, s.uploads[token]));
      if answers == [] then response == NotFoundStatus && !s.running else Tells(response, answers[0])
  {
  }

  /** A live upload that waits on a session that is gone ends: not found, if its call was never
      answered, and otherwise by what it was answered. */
  lemma OrphansAreTold(content: Bytes, s: System, token: Token)
    requires !s.running && LiveUpload(s, token) && s.uploads[token].pc != Reading
    requires AnswersTo(s.log, LastReply(token, s.uploads[token])) == []
    ensures
      var t := Apply(content, s, UploadAnswered(token));
      token in t.uploads && !t.uploads[token].alive && t.uploads[token].response == Some(NotFoundStatus)
  {
    hide AnswersTo;
  }
}
