/**
 One-shot routing tokens: a pinned model call registers a token for the credential it wants, and
 the scheduler plugin recognises the token when the host asks it to pick.
 */
module Pins {
  import opened Text

  const PIN_HEADER := "X-CPA-Auto-Refresh-Token"

  /** The key http.Header.Set files the header under. */
  const CANONICAL_KEY := "X-Cpa-Auto-Refresh-Token"
  const ATTEMPTS := 4

  datatype PinState = PinState(authID: string, schedulerSeen: bool, selected: bool)

  datatype PinError =
    | AuthIDRequired | NoRandomness | NoUniqueToken
    | InvalidPinHeader | PinnedAuthUnavailable | PinNotSelected | CallFailed | Garbled

  type Pinned = map<string, PinState>

  // ----- the header -----

  predicate IsPinKey(key: string) { EqualFold(Trim(key), PIN_HEADER) }

  function Trimmed(items: seq<string>): seq<string> {
    if items == [] then []
    else (if Blank(items[0]) then [] else [Trim(items[0])]) + Trimmed(items[1..])
  }

  type Headers = map<string, seq<string>>

  /** What the header says under one key. */
  function ValuesAt(headers: Headers, key: string): seq<string> {
    if key in headers && IsPinKey(key) then Trimmed(headers[key]) else []
  }

  /** What the header says when its keys are visited in the given order. */
  function ValuesIn(headers: Headers, order: seq<string>): seq<string> {
    if order == [] then [] else ValuesAt(headers, order[0]) + ValuesIn(headers, order[1..])
  }

  /** The order visits every key once. */
  ghost predicate Visits(order: seq<string>, keys: set<string>) {
    (forall key :: key in order <==> key in keys) && forall i, j | 0 <= i < j < |order| :: order[i] != order[j]
  }

  predicate Present(headers: Headers) { exists key :: key in headers && IsPinKey(key) }

  lemma {:induction false} TrimmedAppend(items: seq<string>, item: string)
    ensures Trimmed(items + [item]) == Trimmed(items) + if Blank(item) then [] else [Trim(item)]
  {
    hide Trim;
    if items != [] {
      assert (items + [item])[1..] == items[1..] + [item];
      TrimmedAppend(items[1..], item);
    }
  }

  lemma {:induction false} ValuesAppend(headers: Headers, order: seq<string>, more: seq<string>)
    ensures ValuesIn(headers, order + more) == ValuesIn(headers, order) + ValuesIn(headers, more)
  {
    hide ValuesAt;
    if order == [] {
      assert order + more == more;
    } else {
      assert (order + more)[1..] == order[1..] + more;
      ValuesAppend(headers, order[1..], more);
    }
  }

  /** What is said under the key at position i stands between what is said before and after it. */
  lemma ValuesAround(headers: Headers, order: seq<string>, i: nat)
    requires i < |order|
    ensures ValuesIn(headers, order) ==
            ValuesIn(headers, order[..i]) + ValuesAt(headers, order[i]) + ValuesIn(headers, order[i + 1..])
    ensures ValuesIn(headers, order[..i] + order[i + 1..]) ==
            ValuesIn(headers, order[..i]) + ValuesIn(headers, order[i + 1..])
  {
    hide ValuesAt;
    assert order == order[..i] + order[i..] && order[i..][1..] == order[i + 1..];
    ValuesAppend(headers, order[..i], order[i..]);
    ValuesAppend(headers, order[..i], order[i + 1..]);
  }

  /** However the keys are visited, the header says the same, up to order. */
  lemma {:induction false} OrderDoesNotMatter(headers: Headers, order: seq<string>, order': seq<string>,
                                              keys: set<string>)
    requires Visits(order, keys) && Visits(order', keys)
    ensures multiset(ValuesIn(headers, order)) == multiset(ValuesIn(headers, order'))
    decreases |order|
  {
    if order == [] {
      assert forall key :: key !in order';
      assert forall j | 0 <= j < |order'| :: order'[j] in order';
    } else {
      var i := PositionOf(order', order[0], keys);
      VisitsWithout(order, 0, keys);
      VisitsWithout(order', i, keys);
      assert order[..0] + order[1..] == order[1..];
      hide Visits, ValuesAt;
      OrderDoesNotMatter(headers, order[1..], order'[..i] + order'[i + 1..], keys - {order[0]});
      ValuesAround(headers, order', i);
    }
  }

  lemma PositionOf(order: seq<string>, key: string, keys: set<string>) returns (i: nat)
    requires Visits(order, keys) && key in keys
    ensures i < |order| && order[i] == key
  {
    i :| 0 <= i < |order| && order[i] == key;
  }

  lemma VisitsWithout(order: seq<string>, i: nat, keys: set<string>)
    requires Visits(order, keys) && i < |order|
    ensures Visits(order[..i] + order[i + 1..], keys - {order[i]})
  {
  }

  method PinHeaderValues(headers: Headers)
    returns (values: seq<string>, present: bool, ghost order: seq<string>)
    ensures Visits(order, headers.Keys) && values == ValuesIn(headers, order)
    ensures present <==> Present(headers)
  {
    hide IsPinKey, Trim;
    values, present, order := [], false, [];
    var left := headers.Keys;
    while left != {}
      invariant left <= headers.Keys && Visits(order, headers.Keys - left) && values == ValuesIn(headers, order)
      invariant present <==> exists key :: key in order && IsPinKey(key)
    {
      var key :| key in left;
      left := left - {key};
      ValuesAppend(headers, order, [key]);
      order := order + [key];
      if !IsPinKey(key) {
        continue;
      }
      present := true;
      var items, before := headers[key], values;
      for i := 0 to |items|
        invariant values == before + Trimmed(items[..i])
      {
        TrimmedAppend(items[..i], items[i]);
        assert items[..i + 1] == items[..i] + [items[i]];
        var item := Trim(items[i]);
        if item != "" {
          values := values + [item];
        }
      }
      assert items[..|items|] == items;
      assert ValuesIn(headers, [key]) == ValuesAt(headers, key);
    }
  }

  // ----- matching and picking -----

  datatype Match = NotOurs | BadHeader | Matched(token: string, state: PinState)

  /** Every known token the header carries has been seen by the scheduler. */
  function Seen(pins: Pinned, values: seq<string>): (r: Pinned)
    ensures r.Keys == pins.Keys
  {
    map token | token in pins :: if token in values then pins[token].(schedulerSeen := true) else pins[token]
  }

  /** A header is matched when a registered token is all it carries. */
  function MatchOf(pins: Pinned, present: bool, values: seq<string>): Match {
    if !present then NotOurs
    else if |values| == 1 && values[0] in pins then Matched(values[0], pins[values[0]].(schedulerSeen := true))
    else BadHeader
  }

  function AfterMatch(pins: Pinned, present: bool, values: seq<string>): Pinned {
    if present then Seen(pins, values) else pins
  }

  function Select(pins: Pinned, token: string): (r: Pinned)
    ensures r.Keys == pins.Keys
  {
    if token != "" && token in pins then pins[token := pins[token].(schedulerSeen := true, selected := true)] else pins
  }

  /** What a match answers and changes does not depend on the order of the header's keys. */
  lemma MatchIgnoresOrder(pins: Pinned, headers: Headers, order: seq<string>, order': seq<string>)
    requires Visits(order, headers.Keys) && Visits(order', headers.Keys)
    ensures var values, values', present := ValuesIn(headers, order), ValuesIn(headers, order'), Present(headers);
      && MatchOf(pins, present, values) == MatchOf(pins, present, values')
      && AfterMatch(pins, present, values) == AfterMatch(pins, present, values')
  {
    hide Visits, IsPinKey, ValuesIn;
    var values, values' := ValuesIn(headers, order), ValuesIn(headers, order');
    OrderDoesNotMatter(headers, order, order', headers.Keys);
    assert |values| == |multiset(values)| == |multiset(values')| == |values'|;
    assert forall v :: v in values <==> v in multiset(values');
    if |values| == 1 {
      assert values[0] in values';
    }
  }

  datatype Answer = Unhandled | Handled(authID: string)

  predicate Offered(candidates: seq<string>, authID: string) {
    exists i | 0 <= i < |candidates| :: Trim(candidates[i]) == authID
  }

  /** A credential is offered exactly if some candidate is its ID, with any white space around it. */
  lemma OfferedMeans(candidates: seq<string>, authID: string)
    requires authID != "" && Trim(authID) == authID
    ensures Offered(candidates, authID) <==> exists c :: c in candidates && Surrounds(c, authID)
  {
    hide Trim;
    forall c
      ensures Trim(c) == authID <==> Surrounds(c, authID)
    {
      TrimsTo(c, authID);
    }
    hide Surrounds;
  }

  /** A header key is the reserved name exactly if it is some casing of it, with any white space around. */
  lemma PinKeyMeans(key: string)
    ensures IsPinKey(key) <==>
              exists name :: name != "" && Trim(name) == name && EqualFold(name, PIN_HEADER) && Surrounds(key, name)
  {
    TrimIdempotent(key);
    hide Trim, Surrounds;
    if IsPinKey(key) {
      assert |Lower(Trim(key))| == |Lower(PIN_HEADER)| == |PIN_HEADER| > 0;
      TrimsTo(key, Trim(key));
    }
    hide Lower;
    forall name | name != "" && Trim(name) == name && Surrounds(key, name)
      ensures Trim(key) == name
    {
      TrimsTo(key, name);
    }
  }

  /** The answer to a pick, and the registry after it. */
  function Pick(pins: Pinned, present: bool, values: seq<string>, candidates: seq<string>)
    : (Pinned, Result<Answer, PinError>)
  {
    var seen := AfterMatch(pins, present, values);
    match MatchOf(pins, present, values)
    case NotOurs => (seen, Ok(Unhandled))
    case BadHeader => (seen, Err(InvalidPinHeader))
    case Matched(token, state) =>
      if Offered(candidates, state.authID) then (Select(seen, token), Ok(Handled(state.authID)))
      else (seen, Err(PinnedAuthUnavailable))
  }

  /** A request with the reserved header is never passed on to the default scheduler, and is
      answered only with the credential its one token was registered for. */
  lemma PicksFailClosed(pins: Pinned, present: bool, values: seq<string>, candidates: seq<string>)
    ensures var (pins', answer) := Pick(pins, present, values, candidates);
      && (answer == Ok(Unhandled) <==> !present)
      && (forall id :: answer == Ok(Handled(id)) <==>
            present && |values| == 1 && values[0] in pins && pins[values[0]].authID == id && Offered(candidates, id))
      && (answer == Err(InvalidPinHeader) <==> present && !(|values| == 1 && values[0] in pins))
      && (answer == Err(PinnedAuthUnavailable) <==>
            present && |values| == 1 && values[0] in pins && !Offered(candidates, pins[values[0]].authID))
      && pins'.Keys == pins.Keys
      && (forall token | token in pins && token !in values :: pins'[token] == pins[token])
      && (forall token | token in pins :: pins'[token].authID == pins[token].authID)
      && (forall token | token in pins && pins'[token].selected && !pins[token].selected ::
            values == [token] && answer == Ok(Handled(pins[token].authID)))
  {
  }

  // ----- tokens -----

  /** Thirty-two random bytes in hexadecimal. */
  predicate IsToken(token: string) {
    |token| == 64 && forall i | 0 <= i < |token| :: '0' <= token[i] <= '9' || 'a' <= token[i] <= 'f'
  }

  lemma TokenIsTrimmed(token: string)
    requires IsToken(token)
    ensures Trim(token) == token && !Blank(token)
  {
  }

  /** The outcome of drawing tokens until one is not in use; None is a failed random source. */
  function FreeToken(pins: Pinned, draws: seq<Option<string>>): Result<string, PinError> {
    if draws == [] then Err(NoUniqueToken)
    else if draws[0].None? then Err(NoRandomness)
    else if draws[0].value !in pins then Ok(draws[0].value)
    else FreeToken(pins, draws[1..])
  }

  /** The i-th draw decides: the random source fails there, or the token drawn there is not in use; and
      all before it are. */
  predicate Decides(pins: Pinned, draws: seq<Option<string>>, i: nat) {
    && i < |draws| && (draws[i].Some? ==> draws[i].value !in pins)
    && forall j | 0 <= j < i :: draws[j].Some? && draws[j].value in pins
  }

  /** The first draw that decides gives the token or the failure; without one no token is unique. */
  lemma {:induction false} FirstDrawDecides(pins: Pinned, draws: seq<Option<string>>)
    ensures FreeToken(pins, draws) == Err(NoUniqueToken) <==> forall i: nat :: !Decides(pins, draws, i)
    ensures forall i: nat | Decides(pins, draws, i) ::
              FreeToken(pins, draws) == match draws[i] case Some(token) => Ok(token) case None => Err(NoRandomness)
  {
    if draws != [] {
      if draws[0].Some? && draws[0].value in pins {
        FirstDrawDecides(pins, draws[1..]);
        forall i: nat | Decides(pins, draws, i)
          ensures i > 0 && Decides(pins, draws[1..], i - 1)
        {
          assert forall j | 0 <= j < i - 1 :: draws[1..][j] == draws[j + 1];
        }
        forall i: nat | Decides(pins, draws[1..], i)
          ensures Decides(pins, draws, i + 1)
        {
          assert forall j | 1 <= j < i + 1 :: draws[j] == draws[1..][j - 1];
        }
      } else {
        assert Decides(pins, draws, 0);
      }
    }
  }

  lemma FreeTokenIsFree(pins: Pinned, draws: seq<Option<string>>)
    requires FreeToken(pins, draws).Ok?
    ensures FreeToken(pins, draws).value !in pins && Some(FreeToken(pins, draws).value) in draws
  {
  }

  /** A call's outcome: what the registry held when it ended, and what the host replied. */
  datatype Reply = Replied(body: string) | ReplyGarbled | ReplyFailed

  function Conclude(finished: Option<PinState>, reply: Reply): Result<string, PinError> {
    if finished.None? || !finished.value.selected then
      if finished.Some? && finished.value.schedulerSeen && reply.ReplyFailed? then Err(CallFailed) else Err(PinNotSelected)
    else
      match reply
      case Replied(body) => Ok(body)
      case ReplyGarbled => Err(Garbled)
      case ReplyFailed => Err(CallFailed)
  }

  /** A call succeeds exactly if its token was selected and the host's reply is a model response, which
      is then what it returns; otherwise it says what went wrong, and a failed call is blamed on the
      host as soon as a pick has seen the token. */
  lemma ConclusionOf(finished: PinState, reply: Reply)
    ensures var r := Conclude(Some(finished), reply);
      && (r.Ok? <==> finished.selected && reply.Replied?)
      && (r.Ok? ==> r.value == reply.body)
      && (r == Err(CallFailed) <==> reply.ReplyFailed? && (finished.selected || finished.schedulerSeen))
      && (r == Err(Garbled) <==> reply.ReplyGarbled? && finished.selected)
      && (r == Err(PinNotSelected) <==> !finished.selected && !(reply.ReplyFailed? && finished.schedulerSeen))
  {
  }

  // ----- the call's own headers -----

  function PinnedHeaders(headers: Headers, token: string): Headers {
    headers[CANONICAL_KEY := [token]]
  }

  /** The caller's headers hold no value under any other spelling of the reserved name. */
  predicate NothingElse(headers: Headers, ownKey: string) {
    forall key | key in headers && key != ownKey && IsPinKey(key) :: Trimmed(headers[key]) == []
  }

  /** A pick that carries the call's headers is matched to its token, exactly when the caller's
      own headers hold no other value under a spelling of the reserved name. */
  lemma OwnPickIsMatched(pins: Pinned, headers: Headers, token: string, order: seq<string>)
    requires IsToken(token) && token in pins && Visits(order, PinnedHeaders(headers, token).Keys)
    ensures var sent := PinnedHeaders(headers, token);
      NothingElse(headers, CANONICAL_KEY) <==> MatchOf(pins, Present(sent), ValuesIn(sent, order)) ==
                                               Matched(token, pins[token].(schedulerSeen := true))
  {
    CanonicalKeyIsPinKey();
    TokenIsTrimmed(token);
    hide IsToken, IsPinKey, Trim, Visits, MatchOf, ValuesIn, NothingElse;
    ValuesSent(headers, CANONICAL_KEY, token, order);
    hide *;
    OnlyValueMatches(pins, PinnedHeaders(headers, token), token, order);
  }

  lemma ValuesSent(headers: Headers, ownKey: string, token: string, order: seq<string>)
    requires IsPinKey(ownKey) && Trim(token) == token && !Blank(token)
    requires Visits(order, headers[ownKey := [token]].Keys)
    ensures token in ValuesIn(headers[ownKey := [token]], order)
    ensures NothingElse(headers, ownKey) <==> ValuesIn(headers[ownKey := [token]], order) == [token]
  {
    var sent := headers[ownKey := [token]];
    hide IsPinKey, Trim;
    assert Trimmed([token]) == [token] by { assert [token][1..] == []; }
    assert ValuesAt(sent, ownKey) == [token];
    var i := PositionOf(order, ownKey, sent.Keys);
    ValuesAround(sent, order, i);
    VisitsWithout(order, i, sent.Keys);
    var others := order[..i] + order[i + 1..];
    NoValues(sent, others);
    forall key | key in headers && key != ownKey && IsPinKey(key)
      ensures key in others && ValuesAt(sent, key) == Trimmed(headers[key])
    {
    }
  }

  lemma OnlyValueMatches(pins: Pinned, sent: Headers, token: string, order: seq<string>)
    requires token in pins && token in ValuesIn(sent, order) && Present(sent)
    ensures ValuesIn(sent, order) == [token] <==>
            MatchOf(pins, Present(sent), ValuesIn(sent, order)) == Matched(token, pins[token].(schedulerSeen := true))
  {
    hide ValuesIn, Present, IsPinKey;
  }

  lemma CanonicalKeyIsPinKey()
    ensures IsPinKey(CANONICAL_KEY)
  {
    assert Trim(CANONICAL_KEY) == CANONICAL_KEY by { hide Lower; }
    KeysFold();
    hide Lower, Trim;
  }

  lemma KeysFold()
    ensures EqualFold(CANONICAL_KEY, PIN_HEADER)
  {
    assert Lower("PA") == Lower("pa");
    hide Lower;
    assert PIN_HEADER == "X-C" + "PA" + "-Auto-Refresh-Token";
    assert CANONICAL_KEY == "X-C" + "pa" + "-Auto-Refresh-Token";
    hide *;
    FoldMiddle("X-C", "PA", "pa", "-Auto-Refresh-Token");
  }

  lemma FoldMiddle(start: string, a: string, b: string, end: string)
    requires Lower(a) == Lower(b)
    ensures EqualFold(start + a + end, start + b + end)
  {
    hide Lower;
    LowerAppend(start, a);
    LowerAppend(start, b);
    LowerAppend(start + a, end);
    LowerAppend(start + b, end);
  }

  lemma {:induction false} NoValues(headers: Headers, order: seq<string>)
    ensures ValuesIn(headers, order) == [] <==> forall key | key in order :: ValuesAt(headers, key) == []
  {
    hide ValuesAt;
    if order != [] {
      NoValues(headers, order[1..]);
      assert order == [order[0]] + order[1..];
    }
  }

  /** The reserved header, however its keys are visited, carries the token and nothing else. */
  ghost predicate CarriesOnly(headers: Headers, token: string) {
    exists order :: Visits(order, headers.Keys) && ValuesIn(headers, order) == [token]
  }

  ghost predicate Carries(headers: Headers, token: string) {
    exists order :: Visits(order, headers.Keys) && token in ValuesIn(headers, order)
  }

  /** Any one order of the keys tells what the header carries. */
  lemma OneOrderTells(headers: Headers, order: seq<string>, token: string)
    requires Visits(order, headers.Keys)
    ensures Carries(headers, token) <==> token in ValuesIn(headers, order)
    ensures CarriesOnly(headers, token) <==> ValuesIn(headers, order) == [token]
    ensures !Present(headers) ==> ValuesIn(headers, order) == []
  {
    hide IsPinKey, ValuesIn, Visits;
    var values := ValuesIn(headers, order);
    forall order' | Visits(order', headers.Keys)
      ensures token in ValuesIn(headers, order') <==> token in values
      ensures ValuesIn(headers, order') == [token] <==> values == [token]
    {
      OrderDoesNotMatter(headers, order, order', headers.Keys);
      SameValues(values, ValuesIn(headers, order'), token);
    }
    NoValues(headers, order);
  }

  lemma SameValues(values: seq<string>, values': seq<string>, token: string)
    requires multiset(values) == multiset(values')
    ensures token in values <==> token in values'
    ensures values == [token] <==> values' == [token]
  {
    assert token in values <==> token in multiset(values);
    assert token in values' <==> token in multiset(values');
    assert |values| == |multiset(values)| == |multiset(values')| == |values'|;
    if |values| == 1 {
      assert values[0] in multiset(values) && values'[0] in multiset(values');
    }
  }

  /** What a pick does to a registered token: it is seen if the header carries it, and selected if the
      header carries nothing else and its credential is a candidate. */
  lemma PickMarks(pins: Pinned, present: bool, values: seq<string>, candidates: seq<string>, token: string)
    requires token in pins && token != "" && (!present ==> values == [])
    ensures var pins' := Pick(pins, present, values, candidates).0;
      && pins'.Keys == pins.Keys
      && pins'[token] == PinState(pins[token].authID, pins[token].schedulerSeen || token in values,
                                  pins[token].selected || (values == [token] && Offered(candidates, pins[token].authID)))
  {
    hide Offered;
  }

  // ----- the registry -----

  datatype PickRequest = PickRequest(headers: Headers, candidates: seq<string>)

  class AuthPinRegistry {
    var pins: Pinned

    constructor ()
      ensures pins == map[]
    {
      pins := map[];
    }

    /** The draws are the random source; the source draws at most four times. */
    method Register(authID: string, draws: seq<Option<string>>) returns (r: Result<string, PinError>)
      requires |draws| == ATTEMPTS
      modifies this
      ensures r == if Blank(authID) then Err(AuthIDRequired) else FreeToken(old(pins), draws)
      ensures pins == if r.Ok? then old(pins)[r.value := PinState(Trim(authID), false, false)] else old(pins)
    {
      var id := Trim(authID);
      if id == "" {
        return Err(AuthIDRequired);
      }
      for attempt := 0 to ATTEMPTS
        invariant pins == old(pins) && FreeToken(old(pins), draws) == FreeToken(old(pins), draws[attempt..])
      {
        if draws[attempt].None? {
          return Err(NoRandomness);
        }
        var token := draws[attempt].value;
        if token !in pins {
          pins := pins[token := PinState(id, false, false)];
          return Ok(token);
        }
      }
      return Err(NoUniqueToken);
    }

    method Finish(token: string) returns (finished: Option<PinState>)
      modifies this
      ensures finished == if token != "" && token in old(pins) then Some(old(pins)[token]) else None
      ensures pins == if token != "" then old(pins) - {token} else old(pins)
    {
      if token == "" {
        return None;
      }
      finished := if token in pins then Some(pins[token]) else None;
      pins := pins - {token};
    }

    method MatchHeader(headers: Headers)
      returns (r: Match, ghost values: seq<string>, ghost order: seq<string>)
      modifies this
      ensures Visits(order, headers.Keys) && values == ValuesIn(headers, order)
      ensures r == MatchOf(old(pins), Present(headers), values)
      ensures pins == AfterMatch(old(pins), Present(headers), values)
    {
      hide Visits, IsPinKey, ValuesIn;
      var carried, present, visited := PinHeaderValues(headers);
      values, order := carried, visited;
      if !present {
        return NotOurs, values, order;
      }
      if carried == [] {
        return BadHeader, values, order;
      }
      var known: seq<string> := [];
      for i := 0 to |carried|
        invariant forall v :: v in known <==> v in carried[..i] && v in pins
        invariant i == 1 ==> known == if carried[0] in pins then [carried[0]] else []
        invariant |known| <= i
      {
        assert carried[..i + 1] == carried[..i] + [carried[i]];
        if carried[i] in pins {
          known := known + [carried[i]];
        }
      }
      assert carried[..|carried|] == carried;
      if known == [] {
        return BadHeader, values, order;
      }
      for i := 0 to |known|
        invariant pins == Seen(old(pins), known[..i])
      {
        assert known[..i + 1] == known[..i] + [known[i]];
        pins := pins[known[i] := pins[known[i]].(schedulerSeen := true)];
      }
      assert known[..|known|] == known;
      if |carried| != 1 || |known| != 1 {
        return BadHeader, values, order;
      }
      r := Matched(known[0], pins[known[0]]);
    }

    method MarkSelected(token: string)
      modifies this
      ensures pins == Select(old(pins), token)
    {
      if token == "" {
        return;
      }
      if token in pins {
        pins := pins[token := pins[token].(schedulerSeen := true, selected := true)];
      }
    }

    /** One pick, not interrupted between its match and its mark. */
    method PickPinnedAuth(request: PickRequest)
      returns (answer: Result<Answer, PinError>, ghost values: seq<string>, ghost order: seq<string>)
      modifies this
      ensures Visits(order, request.headers.Keys) && values == ValuesIn(request.headers, order)
      ensures (pins, answer) == Pick(old(pins), Present(request.headers), values, request.candidates)
    {
      hide Visits, IsPinKey, ValuesIn, Trim;
      var found, carried, visited := MatchHeader(request.headers);
      values, order := carried, visited;
      match found {
        case BadHeader => answer := Err(InvalidPinHeader);
        case NotOurs => answer := Ok(Unhandled);
        case Matched(token, state) =>
          for i := 0 to |request.candidates|
            invariant forall j | 0 <= j < i :: Trim(request.candidates[j]) != state.authID
          {
            if Trim(request.candidates[i]) == state.authID {
              MarkSelected(token);
              return Ok(Handled(state.authID)), values, order;
            }
          }
          answer := Err(PinnedAuthUnavailable);
      }
    }

    /** ExecutePinned with the picks the host asks for during the call. Without a token it fails for
        the reason Register gives. With one, the call is concluded from the host's reply and from
        what the picks did to the token: whether one carried it, and whether one carried it alone
        and was offered the wanted credential. It leaves no token behind. */
    method ExecutePinned(authID: string, draws: seq<Option<string>>, during: seq<PickRequest>, reply: Reply)
      returns (r: Result<string, PinError>, ghost token: string, ghost left: PinState)
      requires |draws| == ATTEMPTS && forall d | d in draws && d.Some? :: IsToken(d.value)
      modifies this
      ensures pins.Keys == old(pins).Keys
      ensures forall other | other in pins :: pins[other].authID == old(pins)[other].authID
      ensures Blank(authID) ==> r == Err(AuthIDRequired)
      ensures !Blank(authID) && FreeToken(old(pins), draws).Err? ==> r == FreeToken(old(pins), draws)
      ensures !Blank(authID) && FreeToken(old(pins), draws).Ok? ==>
                && Ok(token) == FreeToken(old(pins), draws) && token !in pins
                && left.authID == Trim(authID)
                && (r.Ok? <==> left.selected && reply.Replied?) && (r.Ok? ==> r.value == reply.body)
                && (r == Err(CallFailed) <==> reply.ReplyFailed? && (left.selected || left.schedulerSeen))
                && (r == Err(Garbled) <==> reply.ReplyGarbled? && left.selected)
                && (r == Err(PinNotSelected) <==> !left.selected && !(reply.ReplyFailed? && left.schedulerSeen))
                && (left.schedulerSeen <==> exists i :: 0 <= i < |during| && Carries(during[i].headers, token))
                && (left.selected <==> exists i ::
                      0 <= i < |during| && CarriesOnly(during[i].headers, token) && Offered(during[i].candidates, Trim(authID)))
    {
      hide Trim, ValuesIn, Visits, IsPinKey, Carries, CarriesOnly, Offered, Pick;
      token, left := "", PinState(Trim(authID), false, false);
      var registered := Register(authID, draws);
      if registered.Err? {
        return Err(registered.error), token, left;
      }
      FreeTokenIsFree(old(pins), draws);
      token := registered.value;
      ghost var own := old(pins)[token := left];
      for i := 0 to |during|
        invariant pins.Keys == own.Keys
        invariant forall other | other in pins :: pins[other].authID == own[other].authID
        invariant pins[token].schedulerSeen <==> exists j :: 0 <= j < i && Carries(during[j].headers, token)
        invariant pins[token].selected <==> exists j ::
                    0 <= j < i && CarriesOnly(during[j].headers, token) && Offered(during[j].candidates, Trim(authID))
      {
        ghost var before := pins;
        var answer, values, order := PickPinnedAuth(during[i]);
        OneOrderTells(during[i].headers, order, token);
        PicksFailClosed(before, Present(during[i].headers), values, during[i].candidates);
        PickMarks(before, Present(during[i].headers), values, during[i].candidates, token);
      }
      left := pins[token];
      var finished := Finish(registered.value);
      r := Conclude(finished, reply);
      ConclusionOf(left, reply);
    }
  }
}
