/**
 Pinned calls and scheduler picks running at the same time. A call registers its token, waits for
 the host, and removes the token; a pick matches, marks and answers in separate steps, so it may
 act on a call that has already ended.
 */
module PinProtocol {
  import opened Text
  import opened Pins

  datatype Call =
    | Executing(authID: string, token: string)
    | Returned(authID: string, token: string, reply: Pins.Reply, result: Result<string, PinError>)

  /** A pick between its steps. It remembers the header values and candidates it was given, and
      the credential the registry named when the token matched. */
  datatype Picking =
    | Deciding(values: seq<string>, candidates: seq<string>, authID: string)
    | Answering(values: seq<string>, candidates: seq<string>, authID: string)

  datatype Event =
    | Entered(call: nat, token: string)
    | Selected(pick: nat, values: seq<string>, candidates: seq<string>, authID: string)
    | Answered(pick: nat, present: bool, values: seq<string>, answer: Result<Answer, PinError>)
    | Left(call: nat, token: string)

  /** `owner` records for every token ever drawn the credential it was drawn for; `picked` are the
      numbers given to picks so far. */
  datatype State = State(
    pins: Pinned,
    calls: map<nat, Call>,
    picks: map<nat, Picking>,
    picked: set<nat>,
    owner: map<string, string>,
    log: seq<Event>)

  datatype Move =
    | Enter(c: nat, authID: string, token: string)
    | Finish(c: nat, reply: Reply)
    | Match(p: nat, present: bool, values: seq<string>, candidates: seq<string>)
    | Decide(p: nat)
    | Reply(p: nat)

  /** A token is drawn once: two draws of 256 random bits never agree. */
  ghost predicate Enters(s: State, c: nat, authID: string, token: string, s': State) {
    && c !in s.calls && !Blank(authID) && IsToken(token) && token !in s.owner
    && s' == s.(pins := s.pins[token := PinState(Trim(authID), false, false)],
                calls := s.calls[c := Executing(Trim(authID), token)],
                owner := s.owner[token := Trim(authID)],
                log := s.log + [Entered(c, token)])
  }

  ghost predicate Finishes(s: State, c: nat, reply: Pins.Reply, s': State) {
    && c in s.calls && s.calls[c].Executing?
    && var token := s.calls[c].token;
       var finished := if token in s.pins then Some(s.pins[token]) else None;
       s' == s.(pins := s.pins - {token},
                calls := s.calls[c := Returned(s.calls[c].authID, token, reply, Conclude(finished, reply))],
                log := s.log + [Left(c, token)])
  }

  ghost predicate Matches(s: State, p: nat, present: bool, values: seq<string>, candidates: seq<string>, s': State) {
    && p !in s.picked && (!present ==> values == [])
    && var pins := AfterMatch(s.pins, present, values);
       match MatchOf(s.pins, present, values)
       case NotOurs =>
         s' == s.(pins := pins, picked := s.picked + {p}, log := s.log + [Answered(p, present, values, Ok(Unhandled))])
       case BadHeader =>
         s' == s.(pins := pins, picked := s.picked + {p}, log := s.log + [Answered(p, present, values, Err(InvalidPinHeader))])
       case Matched(_, state) =>
         s' == s.(pins := pins, picked := s.picked + {p}, picks := s.picks[p := Deciding(values, candidates, state.authID)])
  }

  ghost predicate Decides(s: State, p: nat, s': State) {
    && p in s.picks && s.picks[p].Deciding?
    && var Deciding(values, candidates, authID) := s.picks[p];
       if Offered(candidates, authID) then
         && values != []
         && s' == s.(pins := Select(s.pins, values[0]),
                     picks := s.picks[p := Answering(values, candidates, authID)],
                     log := s.log + [Selected(p, values, candidates, authID)])
       else s' == s.(picks := s.picks - {p}, log := s.log + [Answered(p, true, values, Err(PinnedAuthUnavailable))])
  }

  ghost predicate Replies(s: State, p: nat, s': State) {
    && p in s.picks && s.picks[p].Answering?
    && s' == s.(picks := s.picks - {p},
                log := s.log + [Answered(p, true, s.picks[p].values, Ok(Handled(s.picks[p].authID)))])
  }

  ghost predicate Step(s: State, m: Move, s': State) {
    match m
    case Enter(c, authID, token) => Enters(s, c, authID, token, s')
    case Finish(c, reply) => Finishes(s, c, reply, s')
    case Match(p, present, values, candidates) => Matches(s, p, present, values, candidates, s')
    case Decide(p) => Decides(s, p, s')
    case Reply(p) => Replies(s, p, s')
  }

  ghost predicate Execution(states: seq<State>, moves: seq<Move>) {
    && |states| == |moves| + 1 && states[0] == State(map[], map[], map[], {}, map[], [])
    && forall i | 0 <= i < |moves| :: Step(states[i], moves[i], states[i + 1])
  }

  // ----- the invariant -----

  /** The registry is exactly the calls in flight. */
  predicate Registered(s: State) {
    && "" !in s.owner
    && (forall c | c in s.calls :: s.calls[c].token in s.owner && s.owner[s.calls[c].token] == s.calls[c].authID)
    && (forall c, d | c in s.calls && d in s.calls && s.calls[c].token == s.calls[d].token :: c == d)
    && (forall c | c in s.calls :: s.calls[c].token in s.pins <==> s.calls[c].Executing?)
    && (forall token | token in s.pins :: token in s.owner && s.pins[token].authID == s.owner[token])
    && (forall token | token in s.pins :: IsCalls(s, token))
  }

  predicate IsCalls(s: State, token: string) { exists c :: c in s.calls && s.calls[c].token == token }

  /** A pick under way carries one token and the credential it was drawn for. */
  predicate Carries(s: State, values: seq<string>, authID: string) {
    |values| == 1 && values[0] in s.owner && s.owner[values[0]] == authID
  }

  predicate IsSelection(e: Event, values: seq<string>, authID: string) {
    e.Selected? && e.values == values && e.authID == authID && Offered(e.candidates, authID)
  }

  predicate WasSelected(log: seq<Event>, values: seq<string>, authID: string) {
    exists j | 0 <= j < |log| :: IsSelection(log[j], values, authID)
  }

  predicate PicksOk(s: State) {
    forall p | p in s.picks ::
      && Carries(s, s.picks[p].values, s.picks[p].authID)
      && (s.picks[p].Answering? ==> WasSelected(s.log, s.picks[p].values, s.picks[p].authID))
  }

  predicate EventOk(s: State, e: Event) {
    match e
    case Entered(_, token) => token in s.owner
    case Selected(_, values, candidates, authID) => Carries(s, values, authID) && Offered(candidates, authID)
    case Answered(_, present, values, answer) =>
      && (answer == Ok(Unhandled) <==> !present)
      && (answer.Ok? && answer.value.Handled? ==>
            Carries(s, values, answer.value.authID) && WasSelected(s.log, values, answer.value.authID))
    case Left(_, _) => true
  }

  /** A token is selected only after the call it was drawn for has entered. */
  predicate EntersFirst(log: seq<Event>) {
    forall i, j | 0 <= i < |log| && 0 <= j < |log| && log[i].Entered? && log[j].Selected? && log[j].values == [log[i].token] ::
      i < j
  }

  predicate LogOk(s: State) { (forall e | e in s.log :: EventOk(s, e)) && EntersFirst(s.log) }

  /** Between the call's entering and its leaving, a pick that carried its token alone was decided
      for the credential. */
  predicate SelectedDuring(log: seq<Event>, c: nat, token: string, authID: string) {
    exists i, j, k | 0 <= i < j < k < |log| ::
      log[i] == Entered(c, token) && IsSelection(log[j], [token], authID) && log[k] == Left(c, token)
  }

  predicate CallsOk(s: State) {
    && (forall token | token in s.pins :: s.pins[token].selected <==> WasSelected(s.log, [token], s.pins[token].authID))
    && (forall c | c in s.calls :: Entered(c, s.calls[c].token) in s.log)
    && (forall c | c in s.calls && s.calls[c].Returned? :: ReturnOk(s.log, c, s.calls[c]))
  }

  /** A call succeeds exactly if it was selected while it ran and its reply is a model response, which
      is what it returns. */
  predicate ReturnOk(log: seq<Event>, c: nat, call: Call)
    requires call.Returned?
  {
    && (call.result.Ok? <==> call.reply.Replied? && SelectedDuring(log, c, call.token, call.authID))
    && (call.result.Ok? ==> call.result.value == call.reply.body)
  }

  /** The pick has been answered as it was decided. */
  predicate WasAnswered(log: seq<Event>, e: Event)
    requires e.Selected?
  {
    Answered(e.pick, true, e.values, Ok(Handled(e.authID))) in log
  }

  predicate IsAnswering(s: State, e: Event)
    requires e.Selected?
  {
    e.pick in s.picks && s.picks[e.pick] == Answering(e.values, e.candidates, e.authID)
  }

  /** Picks have numbers of their own, and what was decided is being answered or has been. */
  predicate AnswersDue(s: State) {
    && (forall p | p in s.picks :: p in s.picked)
    && (forall e | e in s.log && e.Selected? :: IsAnswering(s, e) || WasAnswered(s.log, e))
  }

  predicate Inv(s: State) { Registered(s) && PicksOk(s) && LogOk(s) && CallsOk(s) && AnswersDue(s) }

  // ----- every step keeps it -----

  lemma LaterLog(log: seq<Event>, log': seq<Event>)
    requires log <= log'
    ensures forall values, authID | WasSelected(log, values, authID) :: WasSelected(log', values, authID)
    ensures forall c, token, authID | SelectedDuring(log, c, token, authID) :: SelectedDuring(log', c, token, authID)
    ensures forall e | e in log :: e in log'
  {
  }

  predicate OwnersKept(s: State, s': State) {
    forall token | token in s.owner :: token in s'.owner && s'.owner[token] == s.owner[token]
  }

  lemma LogGrows(s: State, e: Event, s': State)
    requires LogOk(s) && OwnersKept(s, s') && s'.log == s.log + [e] && EventOk(s', e)
    requires e.Entered? ==> e.token !in s.owner
    ensures LogOk(s')
  {
    LaterLog(s.log, s'.log);
    hide WasSelected, Offered;
    forall e' | e' in s'.log
      ensures EventOk(s', e')
    {
      if e' in s.log {
        assert EventOk(s, e');
      }
    }
    forall i, j | 0 <= i < |s'.log| && 0 <= j < |s'.log| && s'.log[i].Entered? && s'.log[j].Selected?
                  && s'.log[j].values == [s'.log[i].token]
      ensures i < j
    {
      assert j < |s.log| ==> s.log[j] in s.log;
    }
  }

  /** The picks under way before are still in order. */
  lemma PicksStay(s: State, s': State)
    requires PicksOk(s) && OwnersKept(s, s') && s.log <= s'.log
    ensures forall p | p in s.picks ::
              && Carries(s', s.picks[p].values, s.picks[p].authID)
              && (s.picks[p].Answering? ==> WasSelected(s'.log, s.picks[p].values, s.picks[p].authID))
  {
  }

  /** Registered depends on the registry only through its tokens and their credentials. */
  lemma StillRegistered(s: State, s': State)
    requires Registered(s) && s'.calls == s.calls && s'.owner == s.owner && s'.pins.Keys == s.pins.Keys
    requires forall token | token in s.pins :: s'.pins[token].authID == s.pins[token].authID
    ensures Registered(s')
  {
  }

  lemma CallsStay(s: State, s': State)
    requires CallsOk(s) && s.log <= s'.log && s'.calls == s.calls && s'.pins.Keys == s.pins.Keys
    requires forall token | token in s.pins ::
               s'.pins[token].authID == s.pins[token].authID && (s.pins[token].selected ==> s'.pins[token].selected)
    requires forall token | token in s.pins && s'.pins[token].selected && !s.pins[token].selected ::
               WasSelected(s'.log, [token], s.pins[token].authID)
    requires forall i | |s.log| <= i < |s'.log| ::
               !s'.log[i].Left?
               && forall token | token in s.pins && s'.log[i].Selected? && s'.log[i].values == [token] :: s'.pins[token].selected
    ensures CallsOk(s')
  {
    LaterLog(s.log, s'.log);
    forall token | token in s'.pins && WasSelected(s'.log, [token], s'.pins[token].authID)
      ensures s'.pins[token].selected
    {
      var j :| 0 <= j < |s'.log| && IsSelection(s'.log[j], [token], s'.pins[token].authID);
      assert j < |s.log| ==> s.log[j] == s'.log[j] && WasSelected(s.log, [token], s.pins[token].authID);
    }
    forall c | c in s.calls && s.calls[c].Returned?
      ensures ReturnOk(s'.log, c, s'.calls[c])
    {
      ReturnStays(s.log, s'.log, c, s.calls[c]);
    }
    hide WasSelected, ReturnOk, Offered;
  }

  /** What happens after a call has left does not change how it was concluded. */
  lemma ReturnStays(log: seq<Event>, log': seq<Event>, c: nat, call: Call)
    requires log <= log' && call.Returned? && ReturnOk(log, c, call)
    requires forall i | |log| <= i < |log'| :: log'[i] != Left(c, call.token)
    ensures ReturnOk(log', c, call)
  {
    hide Offered;
    LaterLog(log, log');
    if SelectedDuring(log', c, call.token, call.authID) {
      var i, j, k :| 0 <= i < j < k < |log'| && log'[i] == Entered(c, call.token)
                     && IsSelection(log'[j], [call.token], call.authID) && log'[k] == Left(c, call.token);
      assert log[i] == log'[i] && log[j] == log'[j] && log[k] == log'[k];
    }
  }

  lemma EntersKeeps(s: State, c: nat, authID: string, token: string, s': State)
    requires Inv(s) && Enters(s, c, authID, token, s')
    ensures Registered(s') && PicksOk(s') && LogOk(s') && CallsOk(s')
  {
    hide Trim, IsToken, Offered;
    PicksStay(s, s');
    LogGrows(s, Entered(c, token), s');
    EntersRegistered(s, c, authID, token, s');
    EntersCallsOk(s, c, authID, token, s');
    hide Registered, LogOk, CallsOk, WasSelected;
  }

  lemma StillSomeCalls(s: State, s': State, token: string)
    requires IsCalls(s, token) && forall d | d in s.calls :: d in s'.calls && s'.calls[d].token == s.calls[d].token
    ensures IsCalls(s', token)
  {
  }

  lemma NewlySomeCalls(s: State, c: nat, token: string)
    requires c in s.calls && s.calls[c].token == token
    ensures IsCalls(s, token)
  {
  }

  lemma EntersRegistered(s: State, c: nat, authID: string, token: string, s': State)
    requires Registered(s) && Enters(s, c, authID, token, s')
    ensures Registered(s')
  {
    var wanted := Trim(authID);
    assert token != "";
    hide Trim, IsToken, IsCalls;
    NewCallRegistered(s, c, wanted, token, s');
  }

  lemma NewCallRegistered(s: State, c: nat, wanted: string, token: string, s': State)
    requires Registered(s) && c !in s.calls && token !in s.owner && token != ""
    requires s'.pins == s.pins[token := PinState(wanted, false, false)] && s'.owner == s.owner[token := wanted]
    requires s'.calls == s.calls[c := Executing(wanted, token)]
    ensures Registered(s')
  {
    hide IsCalls;
    NewlySomeCalls(s', c, token);
    assert forall d | d in s.calls :: s.calls[d].token != token && s'.calls[d] == s.calls[d];
    forall t | t in s'.pins && t != token
      ensures IsCalls(s', t)
    {
      StillSomeCalls(s, s', t);
    }
  }

  lemma EntersCallsOk(s: State, c: nat, authID: string, token: string, s': State)
    requires CallsOk(s) && LogOk(s) && Enters(s, c, authID, token, s')
    ensures CallsOk(s')
  {
    hide Trim, IsToken, Offered;
    LaterLog(s.log, s'.log);
    assert s'.log[|s.log|] == Entered(c, token);
    forall t | t in s'.pins
      ensures WasSelected(s'.log, [t], s'.pins[t].authID) <==> WasSelected(s.log, [t], s'.pins[t].authID)
    {
      OnlySelections(s.log, s'.log, [t], s'.pins[t].authID);
    }
    NotYetSelected(s, token, s'.pins[token].authID);
    forall d | d in s.calls && s.calls[d].Returned?
      ensures ReturnOk(s'.log, d, s'.calls[d])
    {
      ReturnStays(s.log, s'.log, d, s.calls[d]);
    }
    hide WasSelected, ReturnOk, LogOk;
  }

  lemma FinishesKeeps(s: State, c: nat, reply: Pins.Reply, s': State)
    requires Inv(s) && Finishes(s, c, reply, s')
    ensures Registered(s') && PicksOk(s') && LogOk(s') && CallsOk(s')
  {
    PicksStay(s, s');
    LogGrows(s, Left(c, s.calls[c].token), s');
    FinishesRegistered(s, c, reply, s');
    FinishesCallsOk(s, c, reply, s');
    hide Registered, LogOk, CallsOk, WasSelected, Conclude;
  }

  lemma FinishesRegistered(s: State, c: nat, reply: Pins.Reply, s': State)
    requires Registered(s) && Finishes(s, c, reply, s')
    ensures Registered(s')
  {
    hide Conclude, IsCalls;
    assert forall d | d in s.calls :: s'.calls[d].token == s.calls[d].token;
    forall t | t in s'.pins
      ensures IsCalls(s', t)
    {
      StillSomeCalls(s, s', t);
    }
  }

  lemma FinishesCallsOk(s: State, c: nat, reply: Pins.Reply, s': State)
    requires Inv(s) && Finishes(s, c, reply, s')
    ensures CallsOk(s')
  {
    hide LogOk, PicksOk, Conclude, Offered;
    LaterLog(s.log, s'.log);
    assert s'.log[|s.log|].Left?;
    forall t | t in s'.pins
      ensures s'.pins[t].selected <==> WasSelected(s'.log, [t], s'.pins[t].authID)
    {
      OnlySelections(s.log, s'.log, [t], s'.pins[t].authID);
    }
    hide WasSelected, SelectedDuring;
    forall d | d in s'.calls
      ensures Entered(d, s'.calls[d].token) in s'.log
    {
      assert Entered(d, s.calls[d].token) in s.log;
    }
    forall d | d in s'.calls && s'.calls[d].Returned?
      ensures ReturnOk(s'.log, d, s'.calls[d])
    {
      if d == c {
        FinishedReturns(s, c, reply, s');
      } else {
        ReturnStays(s.log, s'.log, d, s.calls[d]);
      }
    }
  }

  /** A token that has not been drawn has not been selected. */
  lemma NotYetSelected(s: State, token: string, authID: string)
    requires LogOk(s) && token !in s.owner
    ensures !WasSelected(s.log, [token], authID)
  {
    hide Offered;
    forall j | 0 <= j < |s.log|
      ensures !IsSelection(s.log[j], [token], authID)
    {
      assert EventOk(s, s.log[j]);
    }
  }

  lemma OnlySelections(log: seq<Event>, log': seq<Event>, values: seq<string>, authID: string)
    requires log <= log' && forall i | |log| <= i < |log'| :: !log'[i].Selected?
    ensures WasSelected(log', values, authID) <==> WasSelected(log, values, authID)
  {
    hide Offered;
    LaterLog(log, log');
    if WasSelected(log', values, authID) {
      var j :| 0 <= j < |log'| && IsSelection(log'[j], values, authID);
      assert log[j] == log'[j];
    }
  }

  /** The call that finishes is concluded as it should be. */
  lemma FinishedReturns(s: State, c: nat, reply: Pins.Reply, s': State)
    requires Inv(s) && Finishes(s, c, reply, s')
    ensures c in s'.calls && s'.calls[c].Returned? && ReturnOk(s'.log, c, s'.calls[c])
  {
    hide LogOk, PicksOk, AnswersDue, Conclude, WasSelected, SelectedDuring;
    var token, authID := s.calls[c].token, s.calls[c].authID;
    assert token in s.pins && s.pins[token].authID == authID;
    ConclusionOf(s.pins[token], reply);
    if s.pins[token].selected {
      FinishedWasSelected(s, c, s');
    }
    if SelectedDuring(s'.log, c, token, authID) {
      DuringIsBefore(s.log, s'.log, c, token, authID);
    }
    hide Inv;
  }

  lemma DuringIsBefore(log: seq<Event>, log': seq<Event>, c: nat, token: string, authID: string)
    requires log' == log + [Left(c, token)] && SelectedDuring(log', c, token, authID)
    ensures WasSelected(log, [token], authID)
  {
    hide Offered;
    var i, j, k :| 0 <= i < j < k < |log'| && log'[i] == Entered(c, token)
                   && IsSelection(log'[j], [token], authID) && log'[k] == Left(c, token);
    assert log[j] == log'[j];
  }

  lemma FinishedWasSelected(s: State, c: nat, s': State)
    requires Inv(s) && c in s.calls && s.calls[c].token in s.pins && s.pins[s.calls[c].token].selected
    requires s'.log == s.log + [Left(c, s.calls[c].token)]
    ensures SelectedDuring(s'.log, c, s.calls[c].token, s.calls[c].authID)
  {
    var token, authID := s.calls[c].token, s.calls[c].authID;
    var i :| 0 <= i < |s.log| && s.log[i] == Entered(c, token);
    var j :| 0 <= j < |s.log| && IsSelection(s.log[j], [token], authID);
    assert s'.log[i] == s.log[i] && s'.log[j] == s.log[j] && s'.log[|s.log|] == Left(c, token);
  }

  lemma MatchesKeeps(s: State, p: nat, present: bool, values: seq<string>, candidates: seq<string>, s': State)
    requires Inv(s) && Matches(s, p, present, values, candidates, s')
    ensures Registered(s') && PicksOk(s') && LogOk(s') && CallsOk(s')
  {
    hide Registered, LogOk, CallsOk;
    assert s'.pins.Keys == s.pins.Keys;
    assert forall token | token in s.pins :: s'.pins[token] in {s.pins[token], s.pins[token].(schedulerSeen := true)};
    StillRegistered(s, s');
    CallsStay(s, s');
    PicksStay(s, s');
    hide Seen;
    if MatchOf(s.pins, present, values).Matched? {
      MatchCarries(s, present, values);
      StartingPick(s, p, Deciding(values, candidates, s'.picks[p].authID), s');
    } else {
      LogGrows(s, s'.log[|s.log|], s');
      assert PicksOk(s') by { hide WasSelected, Carries; }
    }
  }

  lemma MatchCarries(s: State, present: bool, values: seq<string>)
    requires Registered(s) && MatchOf(s.pins, present, values).Matched?
    ensures Carries(s, values, MatchOf(s.pins, present, values).state.authID)
  {
  }

  lemma StartingPick(s: State, p: nat, pick: Picking, s': State)
    requires PicksOk(s) && LogOk(s) && pick.Deciding? && Carries(s, pick.values, pick.authID)
    requires s'.picks == s.picks[p := pick] && s'.log == s.log && s'.owner == s.owner
    ensures PicksOk(s') && LogOk(s')
  {
  }

  lemma DecidesKeeps(s: State, p: nat, s': State)
    requires Inv(s) && Decides(s, p, s')
    ensures Registered(s') && PicksOk(s') && LogOk(s') && CallsOk(s')
  {
    hide Offered, SelectedDuring, LogOk, Registered, CallsOk;
    var Deciding(values, candidates, authID) := s.picks[p];
    assert Carries(s, values, authID);
    PicksStay(s, s');
    if Offered(candidates, authID) {
      assert IsSelection(s'.log[|s.log|], values, authID);
      assert WasSelected(s'.log, values, authID);
      assert values == [values[0]];
    }
    hide WasSelected;
    assert PicksOk(s') by { hide Carries; }
    assert EventOk(s', s'.log[|s.log|]);
    hide PicksOk;
    LogGrows(s, s'.log[|s.log|], s');
    StillRegistered(s, s');
    SelectedIsRegistered(s, p);
    CallsStay(s, s');
  }

  /** If the token is still registered, it is registered for the credential the pick carries. */
  lemma SelectedIsRegistered(s: State, p: nat)
    requires Inv(s) && p in s.picks && s.picks[p].values != []
    ensures var token := s.picks[p].values[0]; token in s.pins ==> s.pins[token].authID == s.picks[p].authID
  {
  }

  lemma RepliesKeeps(s: State, p: nat, s': State)
    requires Inv(s) && Replies(s, p, s')
    ensures Registered(s') && PicksOk(s') && LogOk(s') && CallsOk(s')
  {
    PicksStay(s, s');
    StillRegistered(s, s');
    CallsStay(s, s');
    assert WasSelected(s'.log, s.picks[p].values, s.picks[p].authID);
    hide Offered, WasSelected;
    LogGrows(s, s'.log[|s.log|], s');
    hide Registered, LogOk, CallsOk;
  }

  lemma AnswersStayDue(s: State, m: Move, s': State)
    requires AnswersDue(s) && Step(s, m, s')
    ensures AnswersDue(s')
  {
    assert forall p | p in s.picks :: p in s.picked;
    hide Offered, Trim, IsToken, Conclude, Seen, Select, MatchOf, AnswersDue;
    match m {
      case Reply(p) =>
        AnsweringIsAnswered(s, p, s');
      case Decide(p) =>
        DecidedIsDue(s, p, s');
      case _ =>
        NothingDecided(s, s');
    }
  }

  /** A step that decides nothing and answers nothing that was decided. */
  lemma NothingDecided(s: State, s': State)
    requires AnswersDue(s) && s.log <= s'.log && forall p | p in s'.picks :: p in s'.picked
    requires forall p | p in s.picks :: p in s'.picks && s'.picks[p] == s.picks[p]
    requires forall i | |s.log| <= i < |s'.log| :: !s'.log[i].Selected?
    ensures AnswersDue(s')
  {
    forall e | e in s'.log && e.Selected?
      ensures IsAnswering(s', e) || WasAnswered(s'.log, e)
    {
      var i :| 0 <= i < |s'.log| && s'.log[i] == e;
      assert s.log[i] == e && e in s.log;
    }
  }

  lemma DecidedIsDue(s: State, p: nat, s': State)
    requires AnswersDue(s) && Decides(s, p, s')
    ensures AnswersDue(s')
  {
    hide Offered, Select;
    forall e | e in s'.log && e.Selected?
      ensures IsAnswering(s', e) || WasAnswered(s'.log, e)
    {
      if e in s.log {
        assert IsAnswering(s, e) || WasAnswered(s.log, e);
      }
    }
  }

  lemma AnsweringIsAnswered(s: State, p: nat, s': State)
    requires AnswersDue(s) && Replies(s, p, s')
    ensures AnswersDue(s')
  {
    forall e | e in s'.log && e.Selected?
      ensures IsAnswering(s', e) || WasAnswered(s'.log, e)
    {
      assert e in s.log && (IsAnswering(s, e) || WasAnswered(s.log, e));
    }
  }

  lemma {:induction false} AlwaysInv(states: seq<State>, moves: seq<Move>, k: nat)
    requires Execution(states, moves) && k < |states|
    ensures Inv(states[k])
    decreases k
  {
    if k > 0 {
      AlwaysInv(states, moves, k - 1);
      var s, s' := states[k - 1], states[k];
      assert Step(s, moves[k - 1], s');
      AnswersStayDue(s, moves[k - 1], s');
      hide Inv, Enters, Finishes, Matches, Decides, Replies;
      match moves[k - 1] {
        case Enter(c, authID, token) => EntersKeeps(s, c, authID, token, s');
        case Finish(c, reply) => FinishesKeeps(s, c, reply, s');
        case Match(p, present, values, candidates) => MatchesKeeps(s, p, present, values, candidates, s');
        case Decide(p) => DecidesKeeps(s, p, s');
        case Reply(p) => RepliesKeeps(s, p, s');
      }
    }
  }

  // ----- what it says -----

  /** The registry's entries are exactly the tokens of the calls in flight, one each, and each
      names its call's credential. */
  lemma RegistryIsCallsInFlight(states: seq<State>, moves: seq<Move>, k: nat)
    requires Execution(states, moves) && k < |states|
    ensures var s := states[k];
      && (forall token :: token in s.pins <==>
            exists c :: c in s.calls && s.calls[c].Executing? && s.calls[c].token == token)
      && (forall c, d | c in s.calls && d in s.calls && s.calls[c].token == s.calls[d].token :: c == d)
      && (forall c | c in s.calls && s.calls[c].Executing? :: s.pins[s.calls[c].token].authID == s.calls[c].authID)
  {
    AlwaysInv(states, moves, k);
  }

  /** A call succeeds only if, while it was running, a pick carrying its token and no other was
      decided for the credential it wants, which was among the candidates; and that pick has been
      answered with that credential, or is about to be. */
  lemma SuccessMeansSelected(states: seq<State>, moves: seq<Move>, k: nat, c: nat) returns (j: nat)
    requires Execution(states, moves) && k < |states|
    requires c in states[k].calls && states[k].calls[c].Returned? && states[k].calls[c].result.Ok?
    ensures var s, call := states[k], states[k].calls[c];
      && j < |s.log| && IsSelection(s.log[j], [call.token], call.authID)
      && call.reply == Replied(call.result.value)
      && (exists i, l :: 0 <= i < j < l < |s.log| && s.log[i] == Entered(c, call.token) && s.log[l] == Left(c, call.token))
      && (IsAnswering(s, s.log[j]) || WasAnswered(s.log, s.log[j]))
  {
    hide Execution, Registered, PicksOk, LogOk, Offered, WasSelected, SelectedDuring, IsAnswering, WasAnswered;
    AlwaysInv(states, moves, k);
    var s, call := states[k], states[k].calls[c];
    assert ReturnOk(s.log, c, call);
    j := SelectionDuring(s.log, c, call.token, call.authID);
    assert s.log[j] in s.log;
  }

  lemma SelectionDuring(log: seq<Event>, c: nat, token: string, authID: string) returns (j: nat)
    requires SelectedDuring(log, c, token, authID)
    ensures j < |log| && IsSelection(log[j], [token], authID)
    ensures exists i, l :: 0 <= i < j < l < |log| && log[i] == Entered(c, token) && log[l] == Left(c, token)
  {
    hide Offered;
    var i, j', l :| 0 <= i < j' < l < |log| && log[i] == Entered(c, token)
                    && IsSelection(log[j'], [token], authID) && log[l] == Left(c, token);
    j := j';
  }

  /** A call whose token was selected while it ran succeeds exactly with a model response, and returns
      the one that is its own reply. */
  lemma SelectedMeansReplied(states: seq<State>, moves: seq<Move>, k: nat, c: nat)
    requires Execution(states, moves) && k < |states|
    requires c in states[k].calls && states[k].calls[c].Returned?
    requires SelectedDuring(states[k].log, c, states[k].calls[c].token, states[k].calls[c].authID)
    ensures var call := states[k].calls[c];
      && (call.result.Ok? <==> call.reply.Replied?)
      && (call.result.Ok? ==> call.result.value == call.reply.body)
  {
    AlwaysInv(states, moves, k);
    hide Execution, Registered, PicksOk, LogOk, Offered, SelectedDuring;
    assert ReturnOk(states[k].log, c, states[k].calls[c]);
  }

  /** No pick is ever answered with a credential other than the one its only token was drawn for;
      a pick with the reserved header is never passed on unhandled. */
  lemma AnswersAreRight(states: seq<State>, moves: seq<Move>, k: nat, i: nat)
    requires Execution(states, moves) && k < |states| && i < |states[k].log| && states[k].log[i].Answered?
    ensures var s, e := states[k], states[k].log[i];
      && (e.answer == Ok(Unhandled) <==> !e.present)
      && (e.answer.Ok? && e.answer.value.Handled? ==>
            && |e.values| == 1 && e.values[0] in s.owner && s.owner[e.values[0]] == e.answer.value.authID
            && forall c | c in s.calls && s.calls[c].token == e.values[0] :: s.calls[c].authID == e.answer.value.authID)
  {
    AlwaysInv(states, moves, k);
    assert EventOk(states[k], states[k].log[i]);
  }
}
