/**
  The clients (client/gate/GateClientHandler.cpp), the gate (gate/GateServerHandler.cpp) and the
  agent behind it as one system.  Each session's client takes what the gate sends down to it, in
  order; what clients send are the chunks of the gate's receive steps, and any of those is allowed.
 */
module Handshake {
  import opened Values
  import opened FrameDecoder
  import opened Gate
  import opened GateSessions
  import opened AgentMail

  const CMD_NEED_AUTH := 1
  const CMD_AUTH_RSP := 3

  datatype ClientState = CliClosed | CliConnecting | CliConnected | CliAuthorizing | CliAuthorized

  // GateCSMsg as the client reads it.
  datatype Ctrl = Ctrl(cmd: int, result: int)

  // What protobuf makes of bytes that are not one of the gate's own control messages.
  type Parser = Bytes -> Option<Ctrl>

  datatype Dispatched = Next(c: ClientState) | ParseError | AssertionFails

  function Read(parse: Parser, m: Down): (r: Option<Ctrl>) {
    match m
    case NeedAuth => Some(Ctrl(CMD_NEED_AUTH, 0))
    case AuthRsp(result) => Some(Ctrl(CMD_AUTH_RSP, result))
    case Payload(bytes) => parse(bytes)
  }

  /** DispatchMessage. */
  function Dispatch(parse: Parser, c: ClientState, m: Down): (r: Dispatched) {
    match c
    case CliConnected | CliAuthorizing =>
      (match Read(parse, m)
       case None => ParseError
       case Some(ctrl) =>
         if ctrl.cmd == CMD_NEED_AUTH then Next(CliAuthorizing)
         else if ctrl.cmd == CMD_AUTH_RSP then Next(if ctrl.result == 0 then CliAuthorized else c)
         else AssertionFails)
    case CliAuthorized => Next(c)
    case _ => AssertionFails
  }

  // ---------------------------------------------------------------- what a client makes of its messages

  /** One of the first n messages, an AUTH_RSP (3) with result 0, grants the client its authorisation. */
  ghost predicate Granted(parse: Parser, ms: seq<Down>, n: nat) {
    exists j :: 0 <= j < n <= |ms| && Read(parse, ms[j]) == Some(Ctrl(3, 0))
  }

  // A control message that is neither NEED_AUTH (1) nor AUTH_RSP (3).
  predicate Foreign(r: Option<Ctrl>) {
    r.Some? && r.value.cmd != 1 && r.value.cmd != 3
  }

  /** Message k is data that reads as a control message of another kind, ahead of the authorisation. */
  ghost predicate Stray(parse: Parser, ms: seq<Down>, k: nat) {
    k < |ms| && ms[k].Payload? && Foreign(Read(parse, ms[k])) && !Granted(parse, ms, k)
  }

  ghost predicate AnyStray(parse: Parser, ms: seq<Down>, n: nat) {
    exists k :: 0 <= k < n && Stray(parse, ms, k)
  }

  // A client from its OnConnected on: how many messages it has taken, and whether its assertion has failed.
  datatype Client = Client(state: ClientState, taken: nat, failed: bool)

  ghost predicate Tracked(parse: Parser, ms: seq<Down>, c: Client) {
    && c.taken <= |ms| && !c.state.CliConnecting?
    && (!c.state.CliClosed? ==> (c.state.CliAuthorized? <==> Granted(parse, ms, c.taken)))
    && (c.failed <==> AnyStray(parse, ms, c.taken))
  }

  lemma {:induction false} GrantedPrefix(parse: Parser, ms: seq<Down>, more: seq<Down>, n: nat)
    requires n <= |ms|
    ensures Granted(parse, ms + more, n) <==> Granted(parse, ms, n)
  {
    assert forall j :: 0 <= j < n ==> (ms + more)[j] == ms[j];
  }

  lemma {:induction false} StrayPrefix(parse: Parser, ms: seq<Down>, more: seq<Down>, n: nat)
    requires n <= |ms|
    ensures AnyStray(parse, ms + more, n) <==> AnyStray(parse, ms, n)
  {
    forall k | 0 <= k < n
      ensures Stray(parse, ms + more, k) <==> Stray(parse, ms, k)
    {
      GrantedPrefix(parse, ms, more, k);
    }
  }

  // What a client that is not authorised by the first n messages makes of the next one.
  lemma {:induction false} DispatchTracked(parse: Parser, c: ClientState, ms: seq<Down>, n: nat)
    requires n < |ms| && !c.CliClosed? && !c.CliConnecting? && (c.CliAuthorized? <==> Granted(parse, ms, n))
    ensures var d := Dispatch(parse, c, ms[n]);
            && (d.AssertionFails? <==> Stray(parse, ms, n))
            && var c1 := if d.Next? then d.c else c;
               && !c1.CliClosed? && !c1.CliConnecting?
               && (c1.CliAuthorized? <==> Granted(parse, ms, n) || Read(parse, ms[n]) == Some(Ctrl(CMD_AUTH_RSP, 0)))
  {
  }

  function Take(parse: Parser, c: Client, m: Down): (r: Client) {
    var r := c.(taken := c.taken + 1);
    match Dispatch(parse, c.state, m)
    case Next(state) => r.(state := state)
    case ParseError => r
    case AssertionFails => r.(failed := true)
  }

  lemma {:induction false} TakeTracked(parse: Parser, ms: seq<Down>, c: Client)
    requires Tracked(parse, ms, c) && c.taken < |ms| && !c.state.CliClosed?
    ensures Tracked(parse, ms, Take(parse, c, ms[c.taken]))
  {
    DispatchTracked(parse, c.state, ms, c.taken);
  }

  lemma {:induction false} GrownTracked(parse: Parser, ms: seq<Down>, all: seq<Down>, c: Client)
    requires Tracked(parse, ms, c) && ms <= all
    ensures Tracked(parse, all, c)
  {
    var more := all[|ms|..];
    assert all == ms + more;
    GrantedPrefix(parse, ms, more, c.taken);
    StrayPrefix(parse, ms, more, c.taken);
  }

  // ---------------------------------------------------------------- the system

  // Clients that have not done anything yet are not in the map.
  datatype Peers = Peers(w: World, clients: map<nat, Client>)

  datatype Turn = TWorld(m: Move) | TTake(s: nat) | TGone(s: nat)

  function ClientOf(p: Peers, s: nat): (c: Client) {
    if s in p.clients then p.clients[s] else Client(CliConnected, 0, false)
  }

  /** A connected client takes what has been sent down to it; any client may be gone at any time. */
  ghost predicate TurnEnabled(cfg: Config, waits: bool, p: Peers, t: Turn) {
    match t
    case TWorld(m) => MoveEnabled(cfg, waits, p.w, m)
    case TTake(s) => !ClientOf(p, s).state.CliClosed? && ClientOf(p, s).taken < |DownOf(p.w.g.hist.down, s)|
    case TGone(s) => s < p.w.g.hist.sessions
  }

  ghost function TurnOn(cfg: Config, parse: Parser, p: Peers, t: Turn): (r: Peers)
    requires TurnEnabled(cfg, false, p, t)
  {
    match t
    case TWorld(m) => p.(w := MoveOn(cfg, p.w, m))
    case TTake(s) =>
      var c := ClientOf(p, s);
      p.(clients := p.clients[s := Take(parse, c, DownOf(p.w.g.hist.down, s)[c.taken])])
    case TGone(s) => p.(clients := p.clients[s := ClientOf(p, s).(state := CliClosed)])
  }

  ghost predicate CanTurn(cfg: Config, parse: Parser, waits: bool, p: Peers, ts: seq<Turn>)
    decreases |ts|
  {
    ts == [] || (TurnEnabled(cfg, waits, p, ts[0]) && CanTurn(cfg, parse, waits, TurnOn(cfg, parse, p, ts[0]), ts[1..]))
  }

  ghost function Turned(cfg: Config, parse: Parser, waits: bool, p: Peers, ts: seq<Turn>): (r: Peers)
    requires CanTurn(cfg, parse, waits, p, ts)
    decreases |ts|
  {
    if ts == [] then p else Turned(cfg, parse, waits, TurnOn(cfg, parse, p, ts[0]), ts[1..])
  }

  function Start(max: nat, ms: int): (p: Peers) {
    Peers(NewWorld(max, ms), map[])
  }

  ghost predicate ClientOk(parse: Parser, p: Peers, s: nat) {
    Tracked(parse, DownOf(p.w.g.hist.down, s), ClientOf(p, s))
  }

  ghost predicate PeersOk(cfg: Config, parse: Parser, waits: bool, p: Peers) {
    WorldOk(cfg, waits, p.w) && forall s: nat :: ClientOk(parse, p, s)
  }

  lemma {:induction false} TurnKeeps(cfg: Config, parse: Parser, waits: bool, p: Peers, t: Turn)
    requires PeersOk(cfg, parse, waits, p) && TurnEnabled(cfg, waits, p, t)
    ensures PeersOk(cfg, parse, waits, TurnOn(cfg, parse, p, t))
  {
    var r := TurnOn(cfg, parse, p, t);
    if t.TWorld? { MoveKeeps(cfg, waits, p.w, t.m); }
    forall s: nat
      ensures ClientOk(parse, r, s)
    {
      assert ClientOk(parse, p, s);
      match t
      case TWorld(m) =>
        DownOfPrefix(p.w.g.hist.down, r.w.g.hist.down, s);
        GrownTracked(parse, DownOf(p.w.g.hist.down, s), DownOf(r.w.g.hist.down, s), ClientOf(p, s));
      case TTake(s') => if s == s' { TakeTracked(parse, DownOf(p.w.g.hist.down, s), ClientOf(p, s)); }
      case TGone(s') =>
    }
  }

  lemma {:induction false} DownOfPrefix(a: seq<Sent>, b: seq<Sent>, s: nat)
    requires a <= b
    ensures DownOf(a, s) <= DownOf(b, s)
    decreases |b|
  {
    if |a| < |b| { DownOfPrefix(a, b[..|b| - 1], s); } else { assert a == b; }
  }

  lemma {:induction false} TurnsKeep(cfg: Config, parse: Parser, waits: bool, p: Peers, ts: seq<Turn>)
    requires PeersOk(cfg, parse, waits, p) && CanTurn(cfg, parse, waits, p, ts)
    ensures PeersOk(cfg, parse, waits, Turned(cfg, parse, waits, p, ts))
    decreases |ts|
  {
    if ts != [] {
      TurnKeeps(cfg, parse, waits, p, ts[0]);
      TurnsKeep(cfg, parse, waits, TurnOn(cfg, parse, p, ts[0]), ts[1..]);
    }
  }

  lemma {:induction false} StartOk(cfg: Config, parse: Parser, waits: bool, max: nat, ms: int)
    ensures PeersOk(cfg, parse, waits, Start(max, ms))
  {
    NewWorldOk(cfg, waits, max, ms);
  }

  // ---------------------------------------------------------------- the theorems

  /**
    In every run, of an agent that waits or of one that does not, for the client of every session:
    its assertion has failed if and only if, ahead of any authorisation, it has taken data that
    reads as a control message other than NEED_AUTH and AUTH_RSP; and it believes it is authorised,
    while connected, if and only if it has taken an AUTH_RSP with result 0 or data that reads as one.
   */
  lemma {:induction false} AssertionFailsExactlyWhen(
    cfg: Config, parse: Parser, waits: bool, max: nat, ms: int, ts: seq<Turn>, s: nat)
    requires CanTurn(cfg, parse, waits, Start(max, ms), ts)
    ensures var p := Turned(cfg, parse, waits, Start(max, ms), ts);
            var sent, c := DownOf(p.w.g.hist.down, s), ClientOf(p, s);
            && c.taken <= |sent|
            && (c.failed <==> exists k :: 0 <= k < c.taken && Stray(parse, sent, k))
            && (!c.state.CliClosed? ==> (c.state.CliAuthorized? <==> Granted(parse, sent, c.taken)))
  {
    StartOk(cfg, parse, waits, max, ms);
    TurnsKeep(cfg, parse, waits, Start(max, ms), ts);
    assert ClientOk(parse, Turned(cfg, parse, waits, Start(max, ms), ts), s);
  }

  /** NEED_AUTH, then AUTH_RSP with result 0, then data. */
  ghost predicate InOrder(ms: seq<Down>) {
    && (0 < |ms| ==> ms[0] == NeedAuth)
    && (1 < |ms| ==> ms[1] == AuthRsp(0))
    && (forall i :: 2 <= i < |ms| ==> ms[i].Payload?)
  }

  lemma {:induction false} ShapedInOrder(ms: seq<Down>, early: seq<Down>, authorised: bool)
    requires Shaped(ms, early, authorised) && forall k :: 0 <= k < |early| ==> early[k].Payload?
    ensures InOrder(ms) <==> early == []
    ensures early != [] ==> 2 <= |ms| && ms[0] == NeedAuth && ms[1].Payload?
    ensures OnceAuthorised(ms)
  {
    var n := 1 + |early|;
    assert ms[0] == ms[..n][0];
    assert forall k :: 1 <= k < n ==> ms[k] == ms[..n][k] == early[k - 1];
  }

  /** What being sent messages in order means for a client, and what not being sent them in order can do to it. */
  lemma {:induction false} OrderDecides(parse: Parser, ms: seq<Down>, c: Client)
    requires Tracked(parse, ms, c) && ms != [] && ms[0] == NeedAuth
    ensures InOrder(ms) ==> !c.failed && (c.state.CliAuthorized? ==> 2 <= |ms|)
    ensures 2 <= c.taken && ms[1].Payload? && Foreign(Read(parse, ms[1])) ==> c.failed
  {
    if InOrder(ms) {
      forall k | 0 <= k < c.taken
        ensures !Stray(parse, ms, k)
      {
        if 2 <= k { assert Read(parse, ms[1]) == Some(Ctrl(CMD_AUTH_RSP, 0)); }
      }
    }
    if 2 <= c.taken && ms[1].Payload? && Foreign(Read(parse, ms[1])) { assert Stray(parse, ms, 1); }
  }

  /**
    In every run in which the agent sends only for sessions it has been told are connected, for the
    client of every session: it is sent NEED_AUTH, at most one AUTH_RSP, and data; in this order if
    and only if no frame has reached the session before it was authorised, and any that has was
    sent for an earlier session that had the slot.  Sent in order, the client's assertion never
    fails, and when it believes it is authorised it is, or its session is over.  Otherwise it fails
    as soon as it has taken the first such frame, if that reads as a control message of another kind.
   */
  lemma {:induction false} HandshakeIsSafeExactlyWhen(
    cfg: Config, parse: Parser, max: nat, ms: int, ts: seq<Turn>, s: nat)
    requires CanTurn(cfg, parse, true, Start(max, ms), ts)
    requires s < Turned(cfg, parse, true, Start(max, ms), ts).w.g.hist.sessions
    ensures var p := Turned(cfg, parse, true, Start(max, ms), ts);
            var g, sent, c := p.w.g, DownOf(p.w.g.hist.down, s), ClientOf(p, s);
            && OnceAuthorised(sent) && sent != [] && sent[0] == NeedAuth
            && (InOrder(sent) <==> forall k :: 0 <= k < |p.w.arrived| ==> !IsEarly(p.w.arrived[k], s))
            && (forall k :: 0 <= k < |p.w.arrived| && IsEarly(p.w.arrived[k], s) ==> p.w.arrived[k].letter.to < s)
            && (InOrder(sent) ==> !c.failed)
            && (InOrder(sent) && c.state.CliAuthorized? ==>
                forall i :: Serves(g, i, s) ==> g.slots[i].phase.Authorized?)
            && (!InOrder(sent) ==> 2 <= |sent| && sent[1].Payload?)
            && (!InOrder(sent) && 2 <= c.taken && Foreign(Read(parse, sent[1])) ==> c.failed)
  {
    StartOk(cfg, parse, true, max, ms);
    TurnsKeep(cfg, parse, true, Start(max, ms), ts);
    var p := Turned(cfg, parse, true, Start(max, ms), ts);
    var sent, early := DownOf(p.w.g.hist.down, s), EarlyOf(p.w.arrived, s);
    assert SessionDown(p.w.g, p.w.arrived, s) && ClientOk(parse, p, s);
    ShapedInOrder(sent, early, Shaped(sent, early, true));
    NoneEarly(p.w.arrived, s);
    OrderDecides(parse, sent, ClientOf(p, s));
    forall k | 0 <= k < |p.w.arrived| && IsEarly(p.w.arrived[k], s)
      ensures p.w.arrived[k].letter.to < s
    {
      assert Addressed(p.w.arrived[k]);
    }
  }

  ghost predicate OnceAuthorised(ms: seq<Down>) {
    forall i, j :: 0 <= i < |ms| && 0 <= j < |ms| && ms[i].AuthRsp? && ms[j].AuthRsp? ==> i == j
  }

  // ---------------------------------------------------------------- two runs that fail a client

  function TWorlds(ms: seq<Move>): (r: seq<Turn>)
    ensures |r| == |ms| && forall k :: 0 <= k < |ms| ==> r[k] == TWorld(ms[k])
  {
    seq(|ms|, k requires 0 <= k < |ms| => TWorld(ms[k]))
  }

  lemma {:induction false} WorldTurns(cfg: Config, parse: Parser, waits: bool, p: Peers, ms: seq<Move>, rest: seq<Turn>)
    requires CanMove(cfg, waits, p.w, ms)
    requires CanTurn(cfg, parse, waits, p.(w := Moved(cfg, waits, p.w, ms)), rest)
    ensures CanTurn(cfg, parse, waits, p, TWorlds(ms) + rest)
    ensures Turned(cfg, parse, waits, p, TWorlds(ms) + rest)
            == Turned(cfg, parse, waits, p.(w := Moved(cfg, waits, p.w, ms)), rest)
    decreases |ms|
  {
    var ts := TWorlds(ms) + rest;
    if ms == [] {
      assert ts == rest;
    } else {
      assert ts[0] == TWorld(ms[0]) && ts[1..] == TWorlds(ms[1..]) + rest;
      WorldTurns(cfg, parse, waits, p.(w := MoveOn(cfg, p.w, ms[0])), ms[1..], rest);
    }
  }

  /** A client that takes the request to authorise and then a foreign frame. */
  lemma {:induction false} TakesTwo(cfg: Config, parse: Parser, waits: bool, p: Peers, s: nat, bytes: Bytes)
    requires DownOf(p.w.g.hist.down, s) == [NeedAuth, Payload(bytes)] && s !in p.clients && Foreign(parse(bytes))
    ensures CanTurn(cfg, parse, waits, p, [TTake(s), TTake(s)])
    ensures ClientOf(Turned(cfg, parse, waits, p, [TTake(s), TTake(s)]), s).failed
  {
    var p1 := TurnOn(cfg, parse, p, TTake(s));
    assert ClientOf(p1, s) == Client(CliAuthorizing, 1, false);
    TurnFirst(cfg, parse, waits, p1, TTake(s), []);
    TurnFirst(cfg, parse, waits, p, TTake(s), [TTake(s)] + []);
    assert [TTake(s)] + ([TTake(s)] + []) == [TTake(s), TTake(s)];
  }

  lemma {:induction false} TurnFirst(cfg: Config, parse: Parser, waits: bool, p: Peers, t: Turn, rest: seq<Turn>)
    requires TurnEnabled(cfg, waits, p, t) && CanTurn(cfg, parse, waits, TurnOn(cfg, parse, p, t), rest)
    ensures CanTurn(cfg, parse, waits, p, [t] + rest)
    ensures Turned(cfg, parse, waits, p, [t] + rest) == Turned(cfg, parse, waits, TurnOn(cfg, parse, p, t), rest)
  {
    assert ([t] + rest)[1..] == rest;
  }

  /** The agent waits for CONNECTED, and its frame for a session that is over fails the client that has the slot now. */
  lemma {:induction false} ReusedSlotFailsTheClient(cfg: Config, parse: Parser, auth: Bytes, bytes: Bytes)
    requires 0 < |auth| <= MAX_FRAME && Foreign(parse(bytes))
    requires cfg.parse(auth).Some? && cfg.parse(auth).value.area in cfg.areas && !cfg.needAuth
    ensures var ts := TWorlds(ReuseRun(auth, Deliver(bytes))) + [TTake(1), TTake(1)];
            && CanTurn(cfg, parse, true, Start(3, 0), ts)
            && ClientOf(Turned(cfg, parse, true, Start(3, 0), ts), 1).failed
  {
    var run := ReuseRun(auth, Deliver(bytes));
    LetterReachesTheNextSession(cfg, auth, Deliver(bytes));
    var p := Start(3, 0).(w := Moved(cfg, true, NewWorld(3, 0), run));
    assert [NeedAuth] + [Payload(bytes)] == [NeedAuth, Payload(bytes)];
    TakesTwo(cfg, parse, true, p, 1, bytes);
    WorldTurns(cfg, parse, true, Start(3, 0), run, [TTake(1), TTake(1)]);
  }

  // A client connects, and the agent sends to its slot unasked.
  function UnaskedRun(bytes: Bytes): (r: seq<Move>) {
    [] + [MGate(SAccept(5, true, true, 0))] + [MPost(Letter(0, 1, Deliver(bytes)))] + [MArrive(0, 0)]
  }

  lemma {:induction false} UnaskedLeads(cfg: Config, w0: World, bytes: Bytes) returns (r: World)
    requires WorldOk(cfg, false, w0) && NoOne(w0.g, 0) && w0.mail == [] && w0.g.hist.down == []
    ensures Leads(cfg, false, w0, UnaskedRun(bytes), r) && DownOf(r.g.hist.down, 0) == [NeedAuth, Payload(bytes)]
  {
    var l := Letter(0, 1, Deliver(bytes));
    var ms: seq<Move> := [];
    var w := Enters(cfg, false, w0, ms, w0, 0, 5);
    ms := ms + [MGate(SAccept(5, true, true, 0))];
    DownOfAppend([], Sent(0, NeedAuth), 0);
    w := Posts(cfg, false, w0, ms, w, l);
    ms := ms + [MPost(l)];
    r := Reaches(cfg, false, w0, ms, w, l, 0, 5);
  }

  /** An agent that does not wait can fail the client of the session it means. */
  lemma {:induction false} ImpoliteAgentFailsTheClient(cfg: Config, parse: Parser, bytes: Bytes)
    requires Foreign(parse(bytes))
    ensures var ts := TWorlds(UnaskedRun(bytes)) + [TTake(0), TTake(0)];
            && CanTurn(cfg, parse, false, Start(3, 0), ts)
            && ClientOf(Turned(cfg, parse, false, Start(3, 0), ts), 0).failed
  {
    NewWorldOk(cfg, false, 3, 0);
    var r := UnaskedLeads(cfg, NewWorld(3, 0), bytes);
    TakesTwo(cfg, parse, false, Start(3, 0).(w := r), 0, bytes);
    WorldTurns(cfg, parse, false, Start(3, 0), UnaskedRun(bytes), [TTake(0), TTake(0)]);
  }
}
