/**
 * The idempotency middleware over a shared store: probe, claim with SET NX,
 * run the handler, keep what it answered. Requests interleave at every store
 * call, may stop anywhere, and entries may lapse at any time.
 */
module Idempotency {
  import opened Domain
  import Collections
  import Keys

  // --- What a response is, and what the middleware captures of it ---

  /** A response body: a string, or an object with its JSON text. */
  datatype Body = Text(s: string) | Object(json: string)

  /** How a handler answers: the one response method it calls. */
  datatype Response =
    | JsonCall(status: nat, body: Body)
    | SendCall(status: nat, body: Body)
    | EndCall(status: nat, s: string)

  /** What goes over the wire; Quoted is a string sent as JSON. */
  datatype Payload = Plain(s: string) | Quoted(s: string)
  datatype Wire = Wire(status: nat, payload: Payload)

  datatype Kind = JsonKind | SendKind
  datatype Captured = Captured(status: nat, body: Body, kind: Kind)

  /** The wrapped methods, in the order Express calls them. */
  datatype Wrapped = WJson(body: Body) | WSend(body: Body) | WEnd(s: string)

  function JsonPayload(b: Body): Payload {
    match b
    case Text(s) => Quoted(s)
    case Object(json) => Plain(json)
  }

  function PayloadText(p: Payload): string {
    match p
    case Plain(s) => s
    case Quoted(s) => "\"" + s + "\""
  }

  /** Express: json sends its text, send of an object goes through json, and every path ends in end. */
  function Calls(r: Response): seq<Wrapped> {
    match r
    case JsonCall(_, body) => JsonCalls(body)
    case SendCall(_, Object(json)) => [WSend(Object(json))] + JsonCalls(Object(json))
    case SendCall(_, Text(s)) => [WSend(Text(s)), WEnd(s)]
    case EndCall(_, s) => [WEnd(s)]
  }

  function JsonCalls(body: Body): seq<Wrapped> {
    var text := PayloadText(JsonPayload(body));
    [WJson(body), WSend(Text(text)), WEnd(text)]
  }

  function WireOf(r: Response): Wire {
    match r
    case JsonCall(status, body) => Wire(status, JsonPayload(body))
    case SendCall(status, Object(json)) => Wire(status, Plain(json))
    case SendCall(status, Text(s)) => Wire(status, Plain(s))
    case EndCall(status, s) => Wire(status, Plain(s))
  }

  /** The wrappers: json always captures, send and end only when nothing is captured yet. */
  function CaptureOne(status: nat, call: Wrapped, captured: Option<Captured>): Option<Captured> {
    match call
    case WJson(body) => Some(Captured(status, body, JsonKind))
    case WSend(body) => if captured.Some? then captured else Some(Captured(status, body, SendKind))
    case WEnd(s) => if captured.Some? then captured else Some(Captured(status, Text(s), SendKind))
  }

  function Capture(status: nat, calls: seq<Wrapped>, captured: Option<Captured>): Option<Captured>
    decreases |calls|
  {
    if calls == [] then captured else Capture(status, calls[1..], CaptureOne(status, calls[0], captured))
  }

  function CapturedOf(r: Response): Option<Captured> {
    Capture(r.status, Calls(r), None)
  }

  function Replay(c: Captured): Response {
    if c.kind == SendKind then SendCall(c.status, c.body) else JsonCall(c.status, c.body)
  }

  /** Every finished response is captured, and replaying the capture puts the same response on the wire. */
  lemma ReplayIsFaithful(r: Response)
    ensures CapturedOf(r).Some?
    ensures WireOf(Replay(CapturedOf(r).value)) == WireOf(r)
  {
    match r
    case JsonCall(status, body) => JsonCallsCapture(status, body, None);
    case SendCall(status, Object(json)) =>
      assert Calls(r)[1..] == JsonCalls(Object(json));
      JsonCallsCapture(status, Object(json), CaptureOne(status, WSend(Object(json)), None));
    case SendCall(status, Text(s)) =>
      assert Calls(r)[1..] == [WEnd(s)];
      assert [WEnd(s)][1..] == [];
      assert Capture(status, [WEnd(s)], CaptureOne(status, WSend(Text(s)), None)) ==
        CaptureOne(status, WSend(Text(s)), None);
    case EndCall(status, s) =>
      assert [WEnd(s)][1..] == [];
      assert Capture(status, [WEnd(s)], None) == CaptureOne(status, WEnd(s), None);
  }

  lemma JsonCallsCapture(status: nat, body: Body, captured: Option<Captured>)
    ensures Capture(status, JsonCalls(body), captured) == Some(Captured(status, body, JsonKind))
  {
    var text := PayloadText(JsonPayload(body));
    var kept := Some(Captured(status, body, JsonKind));
    assert JsonCalls(body)[1..] == [WSend(Text(text)), WEnd(text)];
    assert [WSend(Text(text)), WEnd(text)][1..] == [WEnd(text)];
    assert [WEnd(text)][1..] == [];
    assert Capture(status, [WEnd(text)], kept) == kept;
    assert Capture(status, [WSend(Text(text)), WEnd(text)], kept) == kept;
  }

  // --- The protocol ---

  /** Keys of the store are only ever compared. */
  datatype Key = Key(text: string)

  datatype Entry = Pending | Stored(captured: Captured)

  /** Where a request stands. From Running on, its handler has been started. */
  datatype Pc =
    | PassedThrough
    | Probing(key: Key)
    | Claiming(key: Key)
    | Running(key: Key)
    | Finishing(key: Key, captured: Option<Captured>)
    | Finished(key: Key, kept: Captured)
    | Replayed(key: Key, kept: Captured)
    | Conflicted(key: Key)

  /** What a request asks for: its verb, the client it comes from, and its Idempotency-Key header. */
  datatype Call = Call(verb: string, identity: string, header: Option<string>)

  /**
   * calls, executions and expiries are history: what each request asked for,
   * who ran the handler for a key, and how often its entry lapsed.
   */
  datatype State = State(
    store: map<Key, Entry>,
    requests: map<RequestId, Pc>,
    calls: map<RequestId, Call>,
    executions: map<Key, seq<RequestId>>,
    expiries: map<Key, nat>)

  datatype Event =
    | Begin(r: RequestId, call: Call)
    | Advance(r: RequestId, response: Response)
    | Expire(key: Key)

  function Init(): State {
    State(map[], map[], map[], map[], map[])
  }

  function Executions(s: State, key: Key): seq<RequestId> {
    if key in s.executions then s.executions[key] else []
  }

  function Expiries(s: State, key: Key): nat {
    if key in s.expiries then s.expiries[key] else 0
  }

  function StoreKey(identity: string, header: string): Key {
    Key(Keys.Join("idem", Keys.Join(identity, header)))
  }

  function FirstPc(call: Call): Pc {
    if call.verb !in {"POST", "PATCH", "PUT", "DELETE"} then PassedThrough
    else if call.header.None? || call.header.value == "" || |call.header.value| > 255 then PassedThrough
    else Probing(StoreKey(call.identity, call.header.value))
  }

  function Goto(s: State, r: RequestId, pc: Pc): State {
    s.(requests := s.requests[r := pc])
  }

  /** One store call of a request; the handler answers with response when it is Running. */
  function Next(s: State, r: RequestId, pc: Pc, response: Response): State {
    match pc
    case Probing(key) =>
      Goto(s, r, if key in s.store && s.store[key].Stored? then Replayed(key, s.store[key].captured) else Claiming(key))
    case Claiming(key) =>
      if key in s.store then Goto(s, r, Conflicted(key))
      else
        var executions := s.executions[key := Executions(s, key) + [r]];
        Goto(s.(store := s.store[key := Pending], executions := executions), r, Running(key))
    case Running(key) => Goto(s, r, Finishing(key, CapturedOf(response)))
    case Finishing(key, captured) =>
      if captured.None? then Goto(s.(store := s.store - {key}), r, PassedThrough)
      else Goto(s.(store := s.store[key := Stored(captured.value)]), r, Finished(key, captured.value))
    case _ => s
  }

  function Step(s: State, e: Event): State {
    match e
    case Begin(r, call) =>
      if r in s.requests then s else Goto(s, r, FirstPc(call)).(calls := s.calls[r := call])
    case Advance(r, response) => if r in s.requests then Next(s, r, s.requests[r], response) else s
    case Expire(key) =>
      if key in s.store then s.(store := s.store - {key}, expiries := s.expiries[key := Expiries(s, key) + 1]) else s
  }

  function Run(s: State, events: seq<Event>): State {
    if events == [] then s else Step(Run(s, events[..|events| - 1]), events[|events| - 1])
  }

  /** Request r ran the handler for the key. */
  predicate Ran(pc: Pc, key: Key) {
    (pc.Running? || pc.Finishing? || pc.Finished?) && pc.key == key
  }

  predicate Executed(s: State, key: Key, r: RequestId) {
    r in Executions(s, key) && r in s.requests && Ran(s.requests[r], key)
  }

  /** Somebody ran the handler for the key and captured this. */
  ghost predicate Produced(s: State, key: Key, captured: Captured) {
    exists q :: Executed(s, key, q) && s.requests[q] == Finished(key, captured)
  }

  ghost predicate RequestOk(s: State, r: RequestId) {
    r in s.requests &&
    match s.requests[r]
    case Running(key) => r in Executions(s, key)
    case Finishing(key, captured) => r in Executions(s, key) && captured.Some?
    case Finished(key, _) => r in Executions(s, key)
    case Replayed(key, captured) => Produced(s, key, captured)
    case Conflicted(key) => Executions(s, key) != []
    case _ => true
  }

  /** The conditions of the invariant that concern one key. */
  ghost predicate KeyOk(s: State, key: Key) {
    && |Executions(s, key)| <= Expiries(s, key) + (if key in s.store then 1 else 0)
    && (forall q :: q in Executions(s, key) ==> Executed(s, key, q))
    && (key in s.store ==> Executions(s, key) != [])
    && (key in s.store && s.store[key].Stored? ==> Produced(s, key, s.store[key].captured))
  }

  ghost predicate Inv(s: State) {
    && (forall key :: KeyOk(s, key))
    && (forall r :: r in s.requests ==> RequestOk(s, r))
  }

  lemma StepMovesOne(s: State, e: Event, r: RequestId)
    requires r in s.requests
    ensures r in Step(s, e).requests
    ensures (e.Advance? && e.r == r) || Step(s, e).requests[r] == s.requests[r]
  {
    if e.Advance? && e.r in s.requests {
      match s.requests[e.r]
      case Claiming(_) =>
      case Finishing(_, _) =>
      case _ =>
    }
  }

  lemma ExecutionsGrow(s: State, e: Event, key: Key)
    ensures Executions(s, key) <= Executions(Step(s, e), key)
  {
    if e.Advance? && e.r in s.requests {
      match s.requests[e.r]
      case Claiming(_) =>
      case Finishing(_, _) =>
      case _ =>
    }
  }

  /** Executions stay executions and what was produced stays produced. */
  lemma StepKeepsHistory(s: State, e: Event, key: Key)
    requires Inv(s)
    ensures forall q :: Executed(s, key, q) ==> Executed(Step(s, e), key, q)
    ensures forall c :: Produced(s, key, c) ==> Produced(Step(s, e), key, c)
    ensures Executions(s, key) <= Executions(Step(s, e), key)
  {
    var s' := Step(s, e);
    ExecutionsGrow(s, e, key);
    forall q | Executed(s, key, q)
      ensures Executed(s', key, q) && (s.requests[q].Finished? ==> s'.requests[q] == s.requests[q]) {
      StepMovesOne(s, e, q);
      assert RequestOk(s, q);
    }
    forall c | Produced(s, key, c) ensures Produced(s', key, c) {
      var q :| Executed(s, key, q) && s.requests[q] == Finished(key, c);
      assert Executed(s', key, q) && s'.requests[q] == Finished(key, c);
    }
  }

  lemma OwnStepKeepsRequest(s: State, r: RequestId, response: Response)
    requires Inv(s) && r in s.requests
    ensures RequestOk(Step(s, Advance(r, response)), r)
  {
    assert RequestOk(s, r);
    if !s.requests[r].PassedThrough? {
      assert KeyOk(s, s.requests[r].key);
      StepKeepsHistory(s, Advance(r, response), s.requests[r].key);
    }
    ReplayIsFaithful(response);
  }

  lemma StepKeepsRequest(s: State, e: Event, r: RequestId)
    requires Inv(s) && r in Step(s, e).requests
    ensures RequestOk(Step(s, e), r)
  {
    if r in s.requests {
      StepMovesOne(s, e, r);
      assert RequestOk(s, r);
      if e.Advance? && e.r == r {
        OwnStepKeepsRequest(s, r, e.response);
      } else if !s.requests[r].PassedThrough? {
        StepKeepsHistory(s, e, s.requests[r].key);
        HistoryKeepsRequest(s, Step(s, e), r);
      }
    } else {
      NewRequestIsOk(s, e, r);
    }
  }

  lemma OnlyBeginAddsRequests(s: State, e: Event)
    ensures !e.Begin? ==> Step(s, e).requests.Keys == s.requests.Keys
  {
    if e.Advance? && e.r in s.requests {
      match s.requests[e.r]
      case Claiming(_) =>
      case Finishing(_, _) =>
      case _ =>
    }
  }

  lemma NewRequestIsOk(s: State, e: Event, r: RequestId)
    requires r !in s.requests && r in Step(s, e).requests
    ensures RequestOk(Step(s, e), r)
  {
    OnlyBeginAddsRequests(s, e);
  }

  lemma HistoryKeepsRequest(s: State, s': State, r: RequestId)
    requires RequestOk(s, r) && r in s'.requests && s'.requests[r] == s.requests[r] && !s.requests[r].PassedThrough?
    requires Executions(s, s.requests[r].key) <= Executions(s', s.requests[r].key)
    requires forall c :: Produced(s, s.requests[r].key, c) ==> Produced(s', s.requests[r].key, c)
    ensures RequestOk(s', r)
  {
  }

  /** The key whose entry or history a step may change. */
  function Touched(s: State, e: Event): Option<Key> {
    match e
    case Expire(key) => Some(key)
    case Advance(r, _) => if r in s.requests && !s.requests[r].PassedThrough? then Some(s.requests[r].key) else None
    case _ => None
  }

  lemma OtherKeysAreUntouched(s: State, e: Event, key: Key)
    requires Touched(s, e) != Some(key)
    ensures var s' := Step(s, e);
      && Executions(s', key) == Executions(s, key) && Expiries(s', key) == Expiries(s, key)
      && (key in s'.store <==> key in s.store) && (key in s.store ==> s'.store[key] == s.store[key])
  {
    if e.Advance? && e.r in s.requests {
      match s.requests[e.r]
      case Claiming(_) =>
      case Finishing(_, _) =>
      case _ => assert Step(s, e).store == s.store && Step(s, e).executions == s.executions;
    }
  }

  lemma StepKeepsKey(s: State, e: Event, key: Key)
    requires Inv(s)
    ensures KeyOk(Step(s, e), key)
  {
    var s' := Step(s, e);
    assert KeyOk(s, key);
    StepKeepsHistory(s, e, key);
    if Touched(s, e) != Some(key) {
      OtherKeysAreUntouched(s, e, key);
    } else if e.Advance? {
      OwnMoveKeepsKey(s, e.r, e.response, key);
    }
  }

  lemma OwnMoveKeepsKey(s: State, r: RequestId, response: Response, key: Key)
    requires Inv(s) && Touched(s, Advance(r, response)) == Some(key)
    ensures KeyOk(Step(s, Advance(r, response)), key)
  {
    var s' := Step(s, Advance(r, response));
    assert KeyOk(s, key) && RequestOk(s, r);
    StepKeepsHistory(s, Advance(r, response), key);
    var pc := s.requests[r];
    if pc.Finishing? {
      assert Executed(s', key, r) && s'.requests[r] == Finished(key, pc.captured.value);
    } else if pc.Claiming? && key !in s.store {
      assert Executions(s', key) == Executions(s, key) + [r];
    } else {
      assert s'.store == s.store && s'.executions == s.executions && s'.expiries == s.expiries;
      SameStoreKeepsKey(s, s', key);
    }
  }

  lemma SameStoreKeepsKey(s: State, s': State, key: Key)
    requires KeyOk(s, key) && s'.store == s.store && s'.executions == s.executions && s'.expiries == s.expiries
    requires forall q :: Executed(s, key, q) ==> Executed(s', key, q)
    requires forall c :: Produced(s, key, c) ==> Produced(s', key, c)
    ensures KeyOk(s', key)
  {
    assert Executions(s', key) == Executions(s, key) && Expiries(s', key) == Expiries(s, key);
  }

  lemma StepKeepsInv(s: State, e: Event)
    requires Inv(s)
    ensures Inv(Step(s, e))
  {
    var s' := Step(s, e);
    forall key ensures KeyOk(s', key) { StepKeepsKey(s, e, key); }
    forall r | r in s'.requests ensures RequestOk(s', r) { StepKeepsRequest(s, e, r); }
  }

  lemma {:induction false} RunKeepsInv(s: State, events: seq<Event>)
    requires Inv(s)
    ensures Inv(Run(s, events))
  {
    if events != [] {
      RunKeepsInv(s, events[..|events| - 1]);
      StepKeepsInv(Run(s, events[..|events| - 1]), events[|events| - 1]);
    }
  }

  // --- Which requests are deduplicated ---

  /** The promise is for these verbs and a key of 1 to 255 characters. */
  predicate Guarded(call: Call) {
    && (call.verb == "POST" || call.verb == "PATCH" || call.verb == "PUT" || call.verb == "DELETE")
    && call.header.Some? && 1 <= |call.header.value| <= 255
  }

  predicate GuardedBy(call: Call, key: Key) {
    Guarded(call) && StoreKey(call.identity, call.header.value) == key
  }

  /** The handler of the request has been called: next() was reached. */
  predicate HandlerRan(pc: Pc) {
    pc.PassedThrough? || pc.Running? || pc.Finishing? || pc.Finished?
  }

  /** A guarded request keeps to its key and is never passed through; all others are. */
  predicate CallOk(call: Call, pc: Pc) {
    if Guarded(call) then !pc.PassedThrough? && GuardedBy(call, pc.key) else pc.PassedThrough?
  }

  lemma StepKeepsCalls(s: State, e: Event, r: RequestId)
    requires Inv(s) && r in Step(s, e).requests
    requires s.calls.Keys == s.requests.Keys && (r in s.requests ==> CallOk(s.calls[r], s.requests[r]))
    ensures Step(s, e).calls.Keys == Step(s, e).requests.Keys && CallOk(Step(s, e).calls[r], Step(s, e).requests[r])
  {
    KeysAreKept(s, e);
    if r in s.requests {
      assert RequestOk(s, r);
      StepMovesOne(s, e, r);
      CallsStay(s, e, r);
      if e.Advance? && e.r == r { OwnMoveKeepsCall(s, r, e.response, s.calls[r]); }
    }
  }

  lemma CallsStay(s: State, e: Event, r: RequestId)
    requires r in s.requests && r in s.calls
    ensures r in Step(s, e).calls && Step(s, e).calls[r] == s.calls[r]
  {
    if e.Advance? && e.r in s.requests {
      match s.requests[e.r]
      case Claiming(_) =>
      case Finishing(_, _) =>
      case _ =>
    }
  }

  lemma OwnMoveKeepsCall(s: State, r: RequestId, response: Response, call: Call)
    requires RequestOk(s, r) && CallOk(call, s.requests[r])
    ensures var s' := Step(s, Advance(r, response)); r in s'.requests && CallOk(call, s'.requests[r])
  {
    match s.requests[r]
    case Claiming(_) =>
    case Running(_) => ReplayIsFaithful(response);
    case _ =>
  }

  lemma {:induction false} CallsAreKept(events: seq<Event>)
    ensures var s := Run(Init(), events);
      s.calls.Keys == s.requests.Keys && forall r :: r in s.requests ==> CallOk(s.calls[r], s.requests[r])
  {
    if events != [] {
      var head, e := events[..|events| - 1], events[|events| - 1];
      var mid := Run(Init(), head);
      CallsAreKept(head);
      RunKeepsInv(Init(), head);
      forall r | r in Step(mid, e).requests ensures CallOk(Step(mid, e).calls[r], Step(mid, e).requests[r]) {
        StepKeepsCalls(mid, e, r);
      }
      KeysAreKept(mid, e);
    }
  }

  lemma KeysAreKept(s: State, e: Event)
    requires s.calls.Keys == s.requests.Keys
    ensures Step(s, e).calls.Keys == Step(s, e).requests.Keys
  {
    if e.Advance? && e.r in s.requests {
      match s.requests[e.r]
      case Claiming(_) =>
      case Finishing(_, _) =>
      case _ =>
    }
  }

  /** In every run exactly the requests outside the promise are passed through to their handler. */
  lemma PassesThroughIff(events: seq<Event>, r: RequestId)
    requires r in Run(Init(), events).requests
    ensures var s := Run(Init(), events); r in s.calls && (s.requests[r].PassedThrough? <==> !Guarded(s.calls[r]))
  {
    CallsAreKept(events);
  }

  /**
   * In every interleaving, of all the guarded requests that one client makes
   * with one key, at most one more has its handler run than the entry lapsed:
   * at most one while the entry is unexpired.
   */
  lemma HandlerRunsOncePerRetention(events: seq<Event>, key: Key, ran: set<RequestId>)
    requires var s := Run(Init(), events);
      forall r :: r in ran ==>
        r in s.calls && r in s.requests && GuardedBy(s.calls[r], key) && HandlerRan(s.requests[r])
    ensures var s := Run(Init(), events); |ran| <= Expiries(s, key) + 1 && |Executions(s, key)| <= Expiries(s, key) + 1
  {
    RunKeepsInv(Init(), events);
    CallsAreKept(events);
    var s := Run(Init(), events);
    assert KeyOk(s, key);
    forall r | r in ran ensures r in Executions(s, key) {
      assert RequestOk(s, r) && CallOk(s.calls[r], s.requests[r]);
    }
    Collections.ElementsAreNoMore(ran, Executions(s, key));
  }

  /**
   * While the entry is unexpired, all guarded requests with the key agree: one
   * of them runs the handler; any other that is done got exactly the response
   * that one captured, or a conflict.
   */
  lemma OthersAreReplayedOrRefused(events: seq<Event>, key: Key, r: RequestId)
    requires var s := Run(Init(), events);
      Expiries(s, key) == 0 && r in s.requests && r in s.calls && GuardedBy(s.calls[r], key)
    ensures var s := Run(Init(), events);
      match s.requests[r]
      case PassedThrough => false
      case Probing(_) => true
      case Claiming(_) => true
      case Replayed(_, c) => exists q ::
        q != r && Executions(s, key) == [q] && q in s.requests && s.requests[q] == Finished(key, c)
      case Conflicted(_) => exists q :: q != r && Executions(s, key) == [q]
      case _ => Executions(s, key) == [r]
  {
    RunKeepsInv(Init(), events);
    CallsAreKept(events);
    var s := Run(Init(), events);
    assert RequestOk(s, r) && KeyOk(s, key) && CallOk(s.calls[r], s.requests[r]);
    var all := Executions(s, key);
    if all != [] {
      assert all[0] in all;
      assert all == [all[0]];
      assert Executed(s, key, all[0]);
    }
  }

  /** The store holds the captured response of the key's finished execution, and it has not lapsed. */
  predicate Settled(s: State, key: Key, c: Captured) {
    key in s.store && s.store[key] == Stored(c) && Expiries(s, key) == 0
  }

  lemma StepKeepsSettled(s: State, e: Event, key: Key, c: Captured)
    requires Inv(s) && Settled(s, key, c) && Expiries(Step(s, e), key) == 0
    ensures Settled(Step(s, e), key, c)
  {
    assert KeyOk(s, key);
    if Touched(s, e) != Some(key) {
      OtherKeysAreUntouched(s, e, key);
    } else if e.Advance? {
      assert RequestOk(s, e.r);
      var q :| Executed(s, key, q) && s.requests[q] == Finished(key, c);
      assert forall p :: p in Executions(s, key) ==> p == Executions(s, key)[0] == q;
    }
  }

  lemma StepExpiriesGrow(s: State, e: Event, key: Key)
    ensures Expiries(s, key) <= Expiries(Step(s, e), key)
  {
  }

  predicate HasFinished(s: State, q: RequestId, key: Key, c: Captured) {
    q in s.requests && s.requests[q] == Finished(key, c)
  }

  lemma FinishesByFinishing(s: State, e: Event, q: RequestId, key: Key, c: Captured)
    requires !HasFinished(s, q, key, c) && HasFinished(Step(s, e), q, key, c)
    ensures e.Advance? && e.r == q && q in s.requests && s.requests[q] == Finishing(key, Some(c))
  {
    if q in s.requests { StepMovesOne(s, e, q); }
  }

  /** Finishing stores the response. */
  lemma FinishingSettles(s: State, q: RequestId, response: Response, key: Key, c: Captured)
    requires q in s.requests && s.requests[q] == Finishing(key, Some(c)) && Expiries(s, key) == 0
    ensures Settled(Step(s, Advance(q, response)), key, c)
  {
  }

  /**
   * In every run in which the entry has not lapsed, the store holds what the
   * finished request of the key captured: finishing is never without storing.
   */
  lemma {:induction false} FinishedIsSettled(events: seq<Event>, q: RequestId, key: Key, c: Captured)
    requires HasFinished(Run(Init(), events), q, key, c) && Expiries(Run(Init(), events), key) == 0
    ensures Settled(Run(Init(), events), key, c)
  {
    if events != [] {
      var head, e := events[..|events| - 1], events[|events| - 1];
      var mid := Run(Init(), head);
      RunKeepsInv(Init(), head);
      StepExpiriesGrow(mid, e, key);
      if HasFinished(mid, q, key, c) {
        FinishedIsSettled(head, q, key, c);
        StepKeepsSettled(mid, e, key, c);
      } else {
        FinishesByFinishing(mid, e, q, key, c);
        FinishingSettles(mid, q, e.response, key, c);
      }
    }
  }

  /** At event k the handler of request q answered with what was captured as c. */
  predicate AnsweredAt(events: seq<Event>, k: nat, q: RequestId, key: Key, c: Captured) {
    k < |events| && events[k].Advance? && events[k].r == q && CapturedOf(events[k].response) == Some(c) &&
    var s := Run(Init(), events[..k]);
    q in s.requests && s.requests[q] == Running(key)
  }

  /** The request is done with its handler and keeps c. */
  predicate Keeps(s: State, q: RequestId, key: Key, c: Captured) {
    HasFinished(s, q, key, c) || (q in s.requests && s.requests[q] == Finishing(key, Some(c)))
  }

  /** What is kept was captured from the handler. */
  lemma KeepingIsCapturing(s: State, e: Event, q: RequestId, key: Key, c: Captured)
    requires !Keeps(s, q, key, c) && Keeps(Step(s, e), q, key, c)
    ensures e.Advance? && e.r == q && CapturedOf(e.response) == Some(c)
    ensures q in s.requests && s.requests[q] == Running(key)
  {
    if q in s.requests { StepMovesOne(s, e, q); }
  }

  /** What a finished request keeps is the one response its own handler gave. */
  lemma {:induction false} KeptIsTheHandlersAnswer(events: seq<Event>, q: RequestId, key: Key, c: Captured)
      returns (k: nat)
    requires Keeps(Run(Init(), events), q, key, c)
    ensures AnsweredAt(events, k, q, key, c)
  {
    var head, e := events[..|events| - 1], events[|events| - 1];
    if Keeps(Run(Init(), head), q, key, c) {
      k := KeptIsTheHandlersAnswer(head, q, key, c);
      assert head[..k] == events[..k];
    } else {
      KeepingIsCapturing(Run(Init(), head), e, q, key, c);
      k := |head|;
    }
  }

  /** Until the entry lapses, a request that probes for a settled key is replayed, whatever interleaves. */
  lemma {:induction false} SettledRequestsAreReplayed(s0: State, later: seq<Event>, key: Key, c: Captured, r: RequestId)
    requires Inv(s0) && Settled(s0, key, c) && r in s0.requests && s0.requests[r] == Probing(key)
    requires Expiries(Run(s0, later), key) == 0
    ensures var s := Run(s0, later);
      Settled(s, key, c) && r in s.requests && (s.requests[r] == Probing(key) || s.requests[r] == Replayed(key, c))
  {
    if later != [] {
      var head, e := later[..|later| - 1], later[|later| - 1];
      RunKeepsInv(s0, head);
      StepExpiriesGrow(Run(s0, head), e, key);
      SettledRequestsAreReplayed(s0, head, key, c, r);
      StepKeepsSettled(Run(s0, head), e, key, c);
      StepMovesOne(Run(s0, head), e, r);
    }
  }

  /** The request was given on the wire what the response puts there. */
  predicate ReplayedAs(s: State, r: RequestId, key: Key, response: Response) {
    r in s.requests && s.requests[r].Replayed? && s.requests[r].key == key &&
    WireOf(Replay(s.requests[r].kept)) == WireOf(response)
  }

  /** It waits for its first store call, or was replayed that response. */
  predicate OnlyReplayed(s: State, r: RequestId, key: Key, response: Response) {
    (r in s.requests && s.requests[r] == Probing(key)) || ReplayedAs(s, r, key, response)
  }

  /**
   * A retry gets the response: once request q has finished and stored what it
   * kept, and until the entry lapses, a request with the key that then arrives
   * can be neither refused nor run, whatever interleaves; its own next store
   * call has it replayed exactly what the handler of q answered.
   */
  lemma LateRequestsAreReplayed(before: seq<Event>, later: seq<Event>, key: Key, c: Captured, q: RequestId,
                                r: RequestId, any: Response) returns (k: nat)
    requires HasFinished(Run(Init(), before), q, key, c)
    requires var s0 := Run(Init(), before); r in s0.requests && s0.requests[r] == Probing(key)
    requires Expiries(Run(Run(Init(), before), later), key) == 0
    ensures AnsweredAt(before, k, q, key, c)
    ensures OnlyReplayed(Run(Run(Init(), before), later), r, key, before[k].response)
    ensures ReplayedAs(Step(Run(Run(Init(), before), later), Advance(r, any)), r, key, before[k].response)
  {
    var s0 := Run(Init(), before);
    RunKeepsInv(Init(), before);
    RunExpiriesGrow(s0, later, key);
    FinishedIsSettled(before, q, key, c);
    SettledRequestsAreReplayed(s0, later, key, c, r);
    k := KeptIsTheHandlersAnswer(before, q, key, c);
    ReplayIsFaithful(before[k].response);
  }

  lemma {:induction false} RunExpiriesGrow(s: State, events: seq<Event>, key: Key)
    ensures Expiries(s, key) <= Expiries(Run(s, events), key)
  {
    if events != [] {
      RunExpiriesGrow(s, events[..|events| - 1], key);
      StepExpiriesGrow(Run(s, events[..|events| - 1]), events[|events| - 1], key);
    }
  }

  // --- A request nobody interrupts ---

  /** The next n calls are all made by request r, its handler answering with response. */
  function Alone(s: State, r: RequestId, response: Response, n: nat): State {
    if n == 0 then s else Step(Alone(s, r, response, n - 1), Advance(r, response))
  }

  /** The first request with a key claims it, runs its handler once and leaves the response stored. */
  lemma FreshKeyRunsTheHandler(s: State, r: RequestId, key: Key, response: Response)
    requires r in s.requests && s.requests[r] == Probing(key) && key !in s.store
    ensures var s', c := Alone(s, r, response, 4), CapturedOf(response);
      && c.Some? && s'.requests == s.requests[r := Finished(key, c.value)]
      && s'.store == s.store[key := Stored(c.value)]
      && Executions(s', key) == Executions(s, key) + [r]
  {
    ReplayIsFaithful(response);
    assert Alone(s, r, response, 0) == s;
    var s1, s2, s3 := Alone(s, r, response, 1), Alone(s, r, response, 2), Alone(s, r, response, 3);
    assert s1 == s.(requests := s.requests[r := Claiming(key)]);
    ClaimsTheKey(s1, r, key, response);
    AnswersAndStores(s2, r, key, response);
    assert Alone(s, r, response, 4) == Step(s3, Advance(r, response));
    assert s.store[key := Pending][key := Stored(CapturedOf(response).value)] ==
      s.store[key := Stored(CapturedOf(response).value)];
  }

  lemma ClaimsTheKey(s: State, r: RequestId, key: Key, response: Response)
    requires r in s.requests && s.requests[r] == Claiming(key) && key !in s.store
    ensures var s' := Step(s, Advance(r, response));
      && s'.requests == s.requests[r := Running(key)] && s'.store == s.store[key := Pending]
      && Executions(s', key) == Executions(s, key) + [r]
  {
  }

  lemma AnswersAndStores(s: State, r: RequestId, key: Key, response: Response)
    requires r in s.requests && s.requests[r] == Running(key) && CapturedOf(response).Some?
    ensures var s', c := Step(Step(s, Advance(r, response)), Advance(r, response)), CapturedOf(response).value;
      && s'.requests == s.requests[r := Finished(key, c)] && s'.store == s.store[key := Stored(c)]
      && s'.executions == s.executions
  {
    var s1 := Step(s, Advance(r, response));
    assert s1 == s.(requests := s.requests[r := Finishing(key, CapturedOf(response))]);
  }

  /** While a request with the key is in progress, another that arrives is told of the conflict and runs nothing. */
  lemma PendingKeyIsAConflict(s: State, r: RequestId, key: Key, any: Response)
    requires r in s.requests && s.requests[r] == Probing(key) && key in s.store && s.store[key] == Pending
    ensures Alone(s, r, any, 2) == s.(requests := s.requests[r := Conflicted(key)])
  {
    assert Alone(s, r, any, 0) == s;
    assert Alone(s, r, any, 1) == s.(requests := s.requests[r := Claiming(key)]);
    assert Alone(s, r, any, 2) == Step(Alone(s, r, any, 1), Advance(r, any));
  }

  // --- Which clients share an entry ---

  /** b is a, a colon, and more. */
  predicate ExtendsByColon(a: string, b: string) {
    |a| < |b| && b[..|a|] == a && b[|a|] == ':'
  }

  /** Two identities, neither of which extends the other by a colon, never share an entry. */
  lemma IdentitiesAreSeparate(identity: string, key: string, identity': string, key': string)
    requires !ExtendsByColon(identity, identity') && !ExtendsByColon(identity', identity)
    requires StoreKey(identity, key) == StoreKey(identity', key')
    ensures identity == identity' && key == key'
  {
    Keys.JoinIsInjective("idem", Keys.Join(identity, key), "idem", Keys.Join(identity', key'));
    if |identity| <= |identity'| {
      ShorterIdentityIsPrefix(identity, key, identity', key');
    } else {
      ShorterIdentityIsPrefix(identity', key', identity, key);
    }
  }

  lemma ShorterIdentityIsPrefix(a: string, x: string, b: string, y: string)
    requires |a| <= |b| && Keys.Join(a, x) == Keys.Join(b, y)
    ensures ExtendsByColon(a, b) || (a == b && x == y)
  {
    var joined := Keys.Join(a, x);
    assert joined[..|a|] == a && joined[..|b|] == b && joined[|a|] == ':';
    if |a| < |b| {
      assert b[..|a|] == a && b[|a|] == joined[|a|];
    } else {
      assert joined[|a| + 1..] == x && joined[|b| + 1..] == y;
    }
  }

  /** The two identities can send keys the middleware takes that reach one entry. */
  ghost predicate CanShare(a: string, b: string) {
    exists x, y :: 1 <= |x| <= 255 && 1 <= |y| <= 255 && StoreKey(a, x) == StoreKey(b, y)
  }

  /** The shorter identity can name the rest of the longer one, a colon and a key within 255 characters. */
  predicate WithinReach(a: string, b: string) {
    ExtendsByColon(a, b) && |b| - |a| <= 254
  }

  /**
   * Different clients can reach one entry if and only if the identity of one is
   * that of the other, a colon and more, and short enough for a key to hold the
   * rest. User ids hold no colon; an IPv6 address stands as it is, so two
   * addresses can collide.
   */
  lemma IdentitiesShareIff(a: string, b: string)
    requires a != b
    ensures CanShare(a, b) <==> WithinReach(a, b) || WithinReach(b, a)
  {
    if WithinReach(a, b) { var x, y := ReachIsShared(a, b); }
    if WithinReach(b, a) {
      var x, y := ReachIsShared(b, a);
      assert StoreKey(a, y) == StoreKey(b, x);
    }
    if CanShare(a, b) {
      var x, y :| 1 <= |x| <= 255 && 1 <= |y| <= 255 && StoreKey(a, x) == StoreKey(b, y);
      if !ExtendsByColon(a, b) && !ExtendsByColon(b, a) { IdentitiesAreSeparate(a, x, b, y); }
      assert |StoreKey(a, x).text| == |StoreKey(b, y).text|;
    }
  }

  lemma ReachIsShared(a: string, b: string) returns (x: string, y: string)
    requires WithinReach(a, b)
    ensures 1 <= |x| <= 255 && 1 <= |y| <= 255 && StoreKey(a, x) == StoreKey(b, y)
  {
    x, y := Keys.Join(b[|a| + 1..], "k"), "k";
    assert b == a + ":" + b[|a| + 1..];
    assert Keys.Join(a, x) == Keys.Join(b, y);
  }

  /** For instance these two addresses. */
  lemma ColonIdentitiesCanCollide()
    ensures StoreKey("1::2", "3:k") == StoreKey("1::2:3", "k")
  {
    assert Keys.Join("1::2", "3:k") == "1::2:3:k" == Keys.Join("1::2:3", "k");
  }
}
