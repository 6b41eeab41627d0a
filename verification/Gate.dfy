/**
  The gate server of gate/GateServerHandler.cpp as a state and its transitions: the slot table,
  the map from socket to slot, the per-connection state machine, the idle timers and the
  shutdown sweep.  Sends to clients and agents are outcomes of a transition, sockets and the
  channel are the environment.

  `History` is bookkeeping the source does not keep: which accepts have not been matched by a
  close notification, the number of the session each slot serves, what was reported to the
  agent for each session, the session each timer was armed for, and what was sent down to the
  client of each session.
 */
module Gate {
  import opened Values
  import opened FrameDecoder
  import opened Timers

  const RECV_BUFFER: nat := MAX_FRAME + 4 // MAX_GATE_FRAME_SIZE + sizeof(uint32_t)

  const CLOSE_BY_DEFAULT := 0
  const CLOSE_BY_CLIENT := 1
  const CLOSE_EXCEPTION := 3

  datatype Phase = Invalid | Connected | Authing | Authorized

  datatype Conn = Conn(idx: int, fd: int, dst: int, phase: Phase, uid: int, area: int, lastAct: int,
                       timerId: nat, lastCheck: int, dec: Decoder, session: nat)

  datatype Body = Opened | Data(payload: Bytes) | Closed(reason: int)

  // GateSSMsg, and the channel it goes to.
  datatype Report = Report(dst: int, idx: int, uid: int, area: int, body: Body)

  datatype Logged = Logged(session: nat, report: Report)

  // What the gate sends down to a client.
  datatype Down = NeedAuth | AuthRsp(result: int) | Payload(bytes: Bytes)

  datatype Sent = Sent(session: nat, msg: Down)

  datatype History = History(open: multiset<int>, sessions: nat, log: seq<Logged>, armed: map<nat, nat>,
                             down: seq<Sent>)

  datatype State = State(slots: seq<Conn>, fds: map<int, int>, alive: int, closing: int, sweep: nat,
                         timers: TimerQueue, hist: History)

  datatype AuthReq = AuthReq(uid: int, area: int)

  // The parser is protobuf's: GateCSMsg bytes to its auth request.
  datatype Config = Config(areas: map<int, int>, needAuth: bool, testMode: bool, idle: int,
                           parse: Bytes -> Option<AuthReq>)

  predicate Live(c: Conn) { !c.phase.Invalid? }

  /** iConnxMaxIdleTime is a uint32_t; multiplied by 1000 it is passed as an int. */
  function IdleMs(cfg: Config): (ms: int) {
    var u := (cfg.idle % 0x1_0000_0000) * 1000 % 0x1_0000_0000;
    if u < 0x8000_0000 then u else u - 0x1_0000_0000
  }

  // The period in milliseconds fits an int.
  predicate PeriodFits(cfg: Config) {
    -0x8000_0000 <= cfg.idle * 1000 < 0x8000_0000
  }

  /** The timer's delay is the period in milliseconds, up to a multiple of 2^32, and exactly if that fits an int. */
  lemma {:induction false} IdlePeriod(cfg: Config)
    ensures -0x8000_0000 <= IdleMs(cfg) < 0x8000_0000
    ensures exists k :: IdleMs(cfg) == cfg.idle * 1000 + k * 0x1_0000_0000
    ensures IdleMs(cfg) == cfg.idle * 1000 <==> PeriodFits(cfg)
  {
    var m := 0x1_0000_0000;
    var low := cfg.idle % m;
    var u := low * 1000 % m;
    var k := -(cfg.idle / m) * 1000 - low * 1000 / m - if u < 0x8000_0000 then 0 else 1;
    assert cfg.idle == cfg.idle / m * m + low;
    assert low * 1000 == low * 1000 / m * m + u;
    assert IdleMs(cfg) == cfg.idle * 1000 + k * m;
  }

  // ---------------------------------------------------------------- lookups

  /** GetConnectionByIdx. */
  function ByIdx(g: State, idx: int): (r: Option<nat>)
    ensures r.Some? ==> 0 < idx < |g.slots| && r.value == idx && Live(g.slots[idx])
  {
    if idx <= 0 || |g.slots| <= idx || !Live(g.slots[idx]) then None else Some(idx)
  }

  /** GetConnectionByFD. */
  function ByFd(g: State, fd: int): (r: Option<nat>)
    ensures r.Some? ==> 0 < r.value < |g.slots| && Live(g.slots[r.value]) && fd in g.fds && g.fds[fd] == r.value
  {
    if fd in g.fds then ByIdx(g, g.fds[fd]) else None
  }

  function FreeFrom(slots: seq<Conn>, i: nat): (r: Option<nat>)
    ensures r.Some? ==> i <= r.value < |slots| && !Live(slots[r.value])
    ensures forall k :: i <= k < |slots| && (r.Some? ==> k < r.value) ==> Live(slots[k])
    decreases |slots| - i
  {
    if |slots| <= i then None else if !Live(slots[i]) then Some(i) else FreeFrom(slots, i + 1)
  }

  /** GetNextIdx; None is its -1. */
  function NextIdx(g: State): (r: Option<nat>)
    ensures r.Some? ==> 0 < r.value < |g.slots| && !Live(g.slots[r.value]) && g.alive < |g.slots|
  {
    if |g.slots| <= g.alive then None else FreeFrom(g.slots, 1)
  }

  // ---------------------------------------------------------------- pieces

  function Put(g: State, i: nat, c: Conn): (r: State)
    requires i < |g.slots|
  {
    g.(slots := g.slots[i := c])
  }

  function Tagged(session: nat, ms: seq<Down>): (r: seq<Sent>)
    ensures |r| == |ms| && forall k :: 0 <= k < |ms| ==> r[k] == Sent(session, ms[k])
  {
    seq(|ms|, k requires 0 <= k < |ms| => Sent(session, ms[k]))
  }

  /** Messages down to the client of the session that slot i serves. */
  function Send(g: State, i: nat, ms: seq<Down>): (r: State)
    requires i < |g.slots|
  {
    g.(hist := g.hist.(down := g.hist.down + Tagged(g.slots[i].session, ms)))
  }

  /** ReportEvent: the slot index comes from operator[], which inserts 0 for a missing socket. */
  function Tell(g: State, i: nat, body: Body): (r: State)
    requires i < |g.slots|
  {
    var c := g.slots[i];
    var fds := if c.fd in g.fds then g.fds else g.fds[c.fd := 0];
    g.(fds := fds,
       hist := g.hist.(log := g.hist.log + [Logged(c.session, Report(c.dst, fds[c.fd], c.uid, c.area, body))]))
  }

  function CloseConn(c: Conn): (r: Conn) {
    c.(phase := Invalid, idx := -1)
  }

  /** RemoveConnection: erase the socket, report, cancel the timer, close the slot. */
  function Remove(g: State, i: nat, reason: int): (r: State)
    requires i < |g.slots|
  {
    var c := g.slots[i];
    var told := Tell(g.(fds := g.fds - {c.fd}), i, Closed(reason));
    Put(told.(timers := Disarm(told.timers, c.timerId)), i, CloseConn(c))
  }

  /** AddTimer for slot i, and the slot's note of it. */
  function ArmIdle(cfg: Config, g: State, i: nat): (r: State)
    requires i < |g.slots|
  {
    var c := g.slots[i];
    Put(g.(timers := Arm(g.timers, IdleMs(cfg), i, 0),
           hist := g.hist.(armed := g.hist.armed[g.timers.nextId := c.session])),
        i, c.(timerId := g.timers.nextId))
  }

  // ---------------------------------------------------------------- accepting

  datatype Accepted = Undefined | Refused(g: State) | Admitted(g: State)

  /** The slot as Init and the first lines of OnNewConnection leave it. */
  function FreshConn(c: Conn, fd: int, session: nat, buf: Bytes, now: int): (r: Conn) {
    Conn(-1, fd, 0, Connected, 0, c.area, now, 0, 0, Decoder(0, 0, buf), session)
  }

  /**
    OnNewConnection.  `created` says whether allocating a missing receive buffer succeeds,
    `sent` whether the auth request goes out.  With no slot to take, the source indexes its
    vector with -1.
   */
  function Accept(cfg: Config, g: State, fd: int, created: bool, sent: bool, now: int): (r: Accepted) {
    var g := g.(alive := g.alive + 1, hist := g.hist.(open := g.hist.open + multiset{fd}));
    match NextIdx(g)
    case None => Undefined
    case Some(i) =>
      var c := g.slots[i];
      if c.dec.buf == [] && !created then Refused(g)
      else
        var buf := if c.dec.buf == [] then seq(RECV_BUFFER, _ => 0) else c.dec.buf;
        if g.closing != 0 then Refused(Put(g, i, c.(dec := c.dec.(buf := buf))))
        else Occupy(cfg, g, i, FreshConn(c, fd, g.hist.sessions, buf, now), sent)
  }

  /** The slot is filled and the auth request sent. */
  function Occupy(cfg: Config, g: State, i: nat, c: Conn, sent: bool): (r: Accepted)
    requires i < |g.slots|
  {
    if !sent then Refused(Put(g, i, CloseConn(c))) else Admitted(Admit(cfg, Put(g, i, c.(idx := i)), i))
  }

  /** The end of OnNewConnection, with the auth request sent: the socket map and the idle timer. */
  function Admit(cfg: Config, g: State, i: nat): (r: State)
    requires i < |g.slots|
  {
    var g := Send(g, i, [NeedAuth]);
    var g := g.(fds := g.fds[g.slots[i].fd := i], hist := g.hist.(sessions := g.hist.sessions + 1));
    if cfg.idle != 0 then ArmIdle(cfg, g, i) else g
  }

  // ---------------------------------------------------------------- receiving

  datatype Action = Stay | Say(body: Body) | Drop

  datatype Handled = Handled(c: Conn, sends: seq<Down>, action: Action, ret: int)

  /** OnClientMessage on the connection itself; reports and removal are left to the table. */
  function Handle(cfg: Config, c: Conn, msg: Bytes, now: int): (r: Handled) {
    var c := c.(lastAct := now);
    match c.phase
    case Connected =>
      (match cfg.parse(msg)
       case None => Handled(c, [], Stay, -1)
       case Some(auth) =>
         if auth.area !in cfg.areas then Handled(c, [], Drop, -1)
         else
           var c := c.(area := auth.area, dst := cfg.areas[auth.area], uid := auth.uid);
           if cfg.needAuth then Handled(c.(phase := Authing), [], Stay, 0)
           else Handled(c.(phase := Authorized), [AuthRsp(0)], Say(Opened), 0))
    case Authing => Handled(c, [], Stay, 0)
    case Authorized =>
      Handled(c, if cfg.testMode then [Payload(seq(1024, _ => 0))] else [], Say(Data(msg)), 0)
    case Invalid => Handled(c, [], Drop, -1)
  }

  function Message(cfg: Config, g: State, i: nat, msg: Bytes, now: int): (r: State)
    requires i < |g.slots|
  {
    var h := Handle(cfg, g.slots[i], msg, now);
    var g := Put(Send(g, i, h.sends), i, h.c);
    match h.action
    case Stay => g
    case Say(body) => Tell(g, i, body)
    case Drop => Remove(g, i, CLOSE_EXCEPTION)
  }

  /** Nothing is buffered, and a slot that has been used has its buffer. */
  predicate DecoderOk(c: Conn) {
    c.dec.used == 0 && (Live(c) ==> Clean(c.dec)) && (c.dec.buf != [] ==> MAX_FRAME < |c.dec.buf|)
  }

  ghost predicate DecodersOk(g: State) {
    forall i :: 0 <= i < |g.slots| ==> DecoderOk(g.slots[i])
  }

  lemma {:induction false} MessageKeepsDecoders(cfg: Config, g: State, i: nat, msg: Bytes, now: int)
    requires i < |g.slots| && DecodersOk(g)
    ensures DecodersOk(Message(cfg, g, i, msg, now))
    ensures Message(cfg, g, i, msg, now).slots[i].dec == g.slots[i].dec
  {
  }

  /**
    OnClientDataRecv: the state and the returned code.  The handler calls itself on what a
    message leaves of the chunk, looking the socket up again.
   */
  function Receive(cfg: Config, g: State, fd: int, chunk: Bytes, now: int): (r: (State, int))
    requires DecodersOk(g)
    ensures DecodersOk(r.0) && |r.0.slots| == |g.slots|
    decreases |chunk|
  {
    match ByFd(g, fd)
    case None => (g, -1)
    case Some(i) =>
      var c := g.slots[i];
      FeedFromClean(c.dec, chunk);
      match Feed(c.dec, chunk)
      case Waiting(d) => (Put(g, i, c.(dec := d)), 0)
      case Complete(d, msg, rest) =>
        var g1 := Put(g, i, c.(dec := d));
        var bad := if Handle(cfg, g1.slots[i], msg, now).ret != 0 then 1 else 0;
        MessageKeepsDecoders(cfg, g1, i, msg, now);
        var g2 := Message(cfg, g1, i, msg, now);
        if rest == [] then (g2, bad)
        else
          var more := Receive(cfg, g2, fd, rest, now);
          (more.0, bad + more.1)
  }

  /** Receive up to its recursive call, which starts from `g2`. */
  lemma {:induction false} ReceiveOne(cfg: Config, g: State, fd: int, i: nat, chunk: Bytes, fed: Fed, now: int)
    returns (g2: State)
    requires DecodersOk(g) && ByFd(g, fd) == Some(i) && fed.Complete? && Clean(g.slots[i].dec)
    requires fed == Feed(g.slots[i].dec, chunk)
    ensures g2 == Message(cfg, Put(g, i, g.slots[i].(dec := fed.d)), i, fed.msg, now) && DecodersOk(g2)
    ensures var r := Receive(cfg, g, fd, chunk, now);
            var bad := if Handle(cfg, g.slots[i].(dec := fed.d), fed.msg, now).ret != 0 then 1 else 0;
            if fed.rest == [] then r.0 == g2 && r.1 == bad
            else r.0 == Receive(cfg, g2, fd, fed.rest, now).0 && r.1 == bad + Receive(cfg, g2, fd, fed.rest, now).1
  {
    var g1 := Put(g, i, g.slots[i].(dec := fed.d));
    FeedFromClean(g.slots[i].dec, chunk);
    MessageKeepsDecoders(cfg, g1, i, fed.msg, now);
    g2 := Message(cfg, g1, i, fed.msg, now);
  }

  // ---------------------------------------------------------------- closing

  function PeerClose(g: State, fd: int): (r: State) {
    var g := g.(alive := g.alive - 1, hist := g.hist.(open := g.hist.open - multiset{fd}));
    match ByFd(g, fd)
    case None => g
    case Some(i) => Remove(g, i, CLOSE_BY_CLIENT)
  }

  /** GateAgentChannelMsgHandler on EVENT_CLOSE. */
  function AgentClose(g: State, idx: int, reason: int): (r: State) {
    match ByIdx(g, idx)
    case None => g
    case Some(i) => Remove(g, i, reason)
  }

  /** GateAgentChannelMsgHandler on EVENT_DATA: the frame goes to the client, the slot notes activity. */
  function AgentData(g: State, idx: int, bytes: Bytes, now: int): (r: State) {
    match ByIdx(g, idx)
    case None => g
    case Some(i) => Put(Send(g, i, [Payload(bytes)]), i, g.slots[i].(lastAct := now))
  }

  /** CheckConnxFree. */
  function CheckIdle(cfg: Config, g: State, idx: int, now: int): (r: State) {
    match ByIdx(g, idx)
    case None => g
    case Some(i) =>
      var c := g.slots[i];
      if c.lastAct + cfg.idle < now then Remove(g, i, CLOSE_BY_DEFAULT)
      else if c.lastCheck + cfg.idle <= now then ArmIdle(cfg, Put(g, i, c.(lastCheck := now)), i)
      else g
  }

  /** One turn of the loop in TimerMgr::Expired, with the gate's callback. */
  function FireAt(cfg: Config, g: State, pos: nat, now: int): (r: State)
    requires AtDue(Walk(g.timers, pos))
  {
    var id := g.timers.entries[pos].id;
    var g1 := g.(timers := Pop(Walk(g.timers, pos)).q);
    if id in g.timers.events then CheckIdle(cfg, g1, g.timers.events[id].code, now) else g1
  }

  /** The loop of OnClosing. */
  function Sweep(g: State, reason: int, n: int): (r: State)
    decreases n
  {
    if n <= 0 || |g.slots| <= g.sweep then g
    else
      var g1 := AgentClose(g, g.sweep, reason);
      Sweep(g1.(sweep := g.sweep + 1), reason, n - 1)
  }

  /** OnClosing: the state and whether the sweep is finished, which the source returns as 1. */
  function Close(g: State, reason: int, n: int): (r: (State, bool)) {
    var swept := Sweep(if g.closing == 0 then g.(closing := reason) else g, reason, n);
    (swept, |swept.slots| <= swept.sweep)
  }

  // ---------------------------------------------------------------- runs

  datatype Step =
    | SAccept(fd: int, created: bool, sent: bool, now: int)
    | SReceive(fd: int, chunk: Bytes, now: int)
    | SPeerClose(fd: int)
    | SAgentClose(idx: int, reason: int)
    | SAgentData(idx: int, bytes: Bytes, now: int)
    | SFire(pos: nat, now: int)
    | SClock(ms: int)
    | SClose(reason: int, n: int)

  /**
    What the environment guarantees: the socket of an accept is not one of a live connection,
    a close notification answers an accept not yet notified, a timer fires when it is due, the
    main loop closes with a nonzero reason, and no accept runs into the undefined case.
   */
  ghost predicate Enabled(cfg: Config, g: State, s: Step) {
    match s
    case SAccept(fd, created, sent, now) =>
      (forall i :: 0 <= i < |g.slots| && Live(g.slots[i]) ==> g.slots[i].fd != fd)
      && !Accept(cfg, g, fd, created, sent, now).Undefined?
    case SReceive(_, _, _) => DecodersOk(g)
    case SPeerClose(fd) => fd in g.hist.open
    case SFire(pos, _) => AtDue(Walk(g.timers, pos))
    case SClose(reason, _) => reason != 0
    case _ => true
  }

  ghost function Apply(cfg: Config, g: State, s: Step): (r: State)
    requires Enabled(cfg, g, s)
  {
    match s
    case SAccept(fd, created, sent, now) => Accept(cfg, g, fd, created, sent, now).g
    case SReceive(fd, chunk, now) => Receive(cfg, g, fd, chunk, now).0
    case SPeerClose(fd) => PeerClose(g, fd)
    case SAgentClose(idx, reason) => AgentClose(g, idx, reason)
    case SAgentData(idx, bytes, now) => AgentData(g, idx, bytes, now)
    case SFire(pos, now) => FireAt(cfg, g, pos, now)
    case SClock(ms) => g.(timers := g.timers.(now := ms))
    case SClose(reason, n) => Close(g, reason, n).0
  }

  ghost predicate CanRun(cfg: Config, g: State, steps: seq<Step>)
    decreases |steps|
  {
    steps == [] || (Enabled(cfg, g, steps[0]) && CanRun(cfg, Apply(cfg, g, steps[0]), steps[1..]))
  }

  ghost function Run(cfg: Config, g: State, steps: seq<Step>): (r: State)
    requires CanRun(cfg, g, steps)
    decreases |steps|
  {
    if steps == [] then g else Run(cfg, Apply(cfg, g, steps[0]), steps[1..])
  }

  function InitialConn(): (c: Conn) {
    Conn(-1, 0, 0, Invalid, 0, 0, 0, 0, 0, Decoder(0, 0, []), 0)
  }

  /** The constructor, at a given time. */
  function Initial(max: nat, ms: int): (g: State) {
    State(seq(max, _ => InitialConn()), map[], 0, 0, 0, TimerQueue([], map[], 1, ms),
          History(multiset{}, 0, [], map[], []))
  }
}
