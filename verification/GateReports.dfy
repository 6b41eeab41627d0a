/**
  What is reported of a session when it opens and when it ends: what the chunks of a connection
  that is not authorised yet lead to, whom its reports name over whole runs, and what its CLOSE says.
 */
module GateReports {
  import opened Values
  import opened FrameDecoder
  import opened Timers
  import opened Gate
  import opened GateTable
  import opened GateSessions
  import opened GateStreams
  import opened AgentMail

  // ---------------------------------------------------------------- one message

  /** The first of the messages that is a request. */
  function FirstAuth(cfg: Config, msgs: seq<Bytes>): (r: Option<AuthReq>)
    decreases |msgs|
  {
    if msgs == [] then None
    else if cfg.parse(msgs[0]).Some? then cfg.parse(msgs[0])
    else FirstAuth(cfg, msgs[1..])
  }

  /** The messages behind the first request. */
  function Behind(cfg: Config, msgs: seq<Bytes>): (r: seq<Bytes>)
    decreases |msgs|
  {
    if msgs == [] then []
    else if cfg.parse(msgs[0]).Some? then msgs[1..]
    else Behind(cfg, msgs[1..])
  }

  // Slot i serves session s on its socket, in this phase.
  ghost predicate At(g: State, i: nat, s: nat, fd: int, phase: Phase) {
    && DecodersOk(g) && 0 < i < |g.slots| && fd in g.fds && g.fds[fd] == i
    && g.slots[i].session == s && g.slots[i].fd == fd && g.slots[i].phase == phase
  }

  // Slot i knows the user and area of the request, and the channel the area is mapped to.
  ghost predicate Knows(cfg: Config, g: State, i: nat, auth: AuthReq) {
    && i < |g.slots| && auth.area in cfg.areas
    && g.slots[i].uid == auth.uid && g.slots[i].area == auth.area && g.slots[i].dst == cfg.areas[auth.area]
  }

  function OpenedFor(cfg: Config, s: nat, i: int, auth: AuthReq): (l: Logged)
    requires auth.area in cfg.areas
  {
    Logged(s, Report(cfg.areas[auth.area], i, auth.uid, auth.area, Opened))
  }

  /**
    A message on a slot that is not authorised.  What is not a request changes nothing.  A request
    for an area that is not configured ends the session with one CLOSE.  Any other is answered and
    reported, with its own user and area, or only noted when the gate requires authentication.
   */
  lemma {:induction false} RequestDecides(cfg: Config, g: State, i: nat, s: nat, fd: int, msg: Bytes, now: int)
    requires At(g, i, s, fd, Connected)
    ensures var r := Message(cfg, g, i, msg, now);
            match cfg.parse(msg)
            case None =>
              && At(r, i, s, fd, Connected) && r.slots[i] == g.slots[i].(lastAct := now)
              && r.hist.log == g.hist.log && r.hist.down == g.hist.down
              && Handle(cfg, g.slots[i], msg, now).ret == -1
            case Some(auth) =>
              if auth.area !in cfg.areas then
                && Handle(cfg, g.slots[i], msg, now).ret == -1
                && !LiveAt(r, i) && (fd in r.fds ==> r.fds[fd] == 0) && r.hist.down == g.hist.down
                && r.hist.log == g.hist.log
                     + [Logged(s, Report(g.slots[i].dst, 0, g.slots[i].uid, g.slots[i].area, Closed(3)))]
              else if cfg.needAuth then
                && At(r, i, s, fd, Authing) && Knows(cfg, r, i, auth) && r.slots[i].lastAct == now
                && r.hist.log == g.hist.log && r.hist.down == g.hist.down
                && Handle(cfg, g.slots[i], msg, now).ret == 0
              else
                && At(r, i, s, fd, Authorized) && Knows(cfg, r, i, auth) && r.slots[i].lastAct == now
                && r.hist.log == g.hist.log + [OpenedFor(cfg, s, i, auth)]
                && r.hist.down == g.hist.down + [Sent(s, AuthRsp(0))]
                && Handle(cfg, g.slots[i], msg, now).ret == 0
    ensures Message(cfg, g, i, msg, now).slots[i].dec == g.slots[i].dec
  {
    MessageKeepsDecoders(cfg, g, i, msg, now);
    assert Tagged(s, []) == [] && Tagged(s, [AuthRsp(0)]) == [Sent(s, AuthRsp(0))];
    assert g.hist.down + [] == g.hist.down;
  }

  /** While its authentication is pending, a session's messages lead to nothing. */
  lemma {:induction false} PendingIgnores(cfg: Config, g: State, i: nat, s: nat, fd: int, msg: Bytes, now: int)
    requires At(g, i, s, fd, Authing)
    ensures var r := Message(cfg, g, i, msg, now);
            && At(r, i, s, fd, Authing) && r.slots[i].dec == g.slots[i].dec
            && r.slots[i] == g.slots[i].(lastAct := now)
            && r.hist.log == g.hist.log && r.hist.down == g.hist.down
            && Handle(cfg, g.slots[i], msg, now).ret == 0
  {
    MessageKeepsDecoders(cfg, g, i, msg, now);
    assert Tagged(s, []) == [] && g.hist.down + [] == g.hist.down;
  }

  /** Once authorised, a message is reported as it is; in test mode the client is sent 1024 bytes for it. */
  lemma {:induction false} DataIsReported(cfg: Config, g: State, i: nat, s: nat, fd: int, msg: Bytes, now: int)
    requires At(g, i, s, fd, Authorized)
    ensures var c, r := g.slots[i], Message(cfg, g, i, msg, now);
            && At(r, i, s, fd, Authorized) && r.slots[i] == c.(lastAct := now)
            && r.hist.log == g.hist.log + [Logged(s, Report(c.dst, i, c.uid, c.area, Data(msg)))]
            && Handle(cfg, c, msg, now).ret == 0
            && g.hist.down <= r.hist.down
            && var sent := r.hist.down[|g.hist.down|..];
               if cfg.testMode then
                 |sent| == 1 && sent[0].session == s && sent[0].msg.Payload? && |sent[0].msg.bytes| == 1024
               else sent == []
  {
    MessageKeepsDecoders(cfg, g, i, msg, now);
  }

  // ---------------------------------------------------------------- one chunk

  lemma {:induction false} ReceivePending(cfg: Config, g: State, i: nat, s: nat, fd: int, chunk: Bytes, now: int)
    requires At(g, i, s, fd, Authing)
    ensures var r := Receive(cfg, g, fd, chunk, now).0;
            && At(r, i, s, fd, Authing) && r.hist.log == g.hist.log && Receive(cfg, g, fd, chunk, now).1 == 0
            && r.slots[i].uid == g.slots[i].uid && r.slots[i].area == g.slots[i].area
            && r.slots[i].dst == g.slots[i].dst
    decreases |chunk|
  {
    var d := g.slots[i].dec;
    FeedFromClean(d, chunk);
    var fed := Feed(d, chunk);
    if fed.Complete? {
      var g2 := ReceiveOne(cfg, g, fd, i, chunk, fed, now);
      PendingIgnores(cfg, Put(g, i, g.slots[i].(dec := fed.d)), i, s, fd, fed.msg, now);
      if fed.rest != [] { ReceivePending(cfg, g2, i, s, fd, fed.rest, now); }
    }
  }

  // What the messages of a chunk lead to on a slot that is not authorised.
  ghost predicate Decided(cfg: Config, g: State, r: State, i: nat, s: nat, fd: int, msgs: seq<Bytes>)
    requires i < |g.slots|
  {
    match FirstAuth(cfg, msgs)
    case None => At(r, i, s, fd, Connected) && r.hist.log == g.hist.log
    case Some(auth) =>
      if auth.area !in cfg.areas then
        && !LiveAt(r, i)
        && r.hist.log == g.hist.log
             + [Logged(s, Report(g.slots[i].dst, 0, g.slots[i].uid, g.slots[i].area, Closed(3)))]
      else if cfg.needAuth then
        At(r, i, s, fd, Authing) && Knows(cfg, r, i, auth) && r.hist.log == g.hist.log
      else
        && At(r, i, s, fd, Authorized) && Knows(cfg, r, i, auth)
        && r.hist.log == g.hist.log + [OpenedFor(cfg, s, i, auth)] + DataReports(r.slots[i], i, Behind(cfg, msgs))
  }

  // The state when the chunk is done: that after its first message, or what the rest of it leads to.
  function Finally(cfg: Config, g: State, fd: int, rest: Bytes, now: int): (r: State)
    requires DecodersOk(g)
  {
    if rest == [] then g else Receive(cfg, g, fd, rest, now).0
  }

  function Rest(d: Decoder, rest: Bytes): (r: seq<Bytes>)
    requires Clean(d)
  {
    if rest == [] then [] else Drain(d, rest).1
  }

  lemma {:induction false} DecidedByFirst(
    cfg: Config, g: State, r: State, i: nat, s: nat, fd: int, msg: Bytes, rest: seq<Bytes>)
    requires i < |g.slots| && cfg.parse(msg).None? && Decided(cfg, g, r, i, s, fd, rest)
    ensures Decided(cfg, g, r, i, s, fd, [msg] + rest)
  {
    assert ([msg] + rest)[1..] == rest;
  }

  lemma {:induction false} FirstRequest(cfg: Config, msg: Bytes, rest: seq<Bytes>)
    requires cfg.parse(msg).Some?
    ensures FirstAuth(cfg, [msg] + rest) == cfg.parse(msg) && Behind(cfg, [msg] + rest) == rest
  {
    assert ([msg] + rest)[1..] == rest;
  }

  lemma {:induction false} NoRequest(cfg: Config, g: State, r: State, i: nat, s: nat, fd: int)
    requires i < |g.slots| && At(r, i, s, fd, Connected) && r.hist.log == g.hist.log
    ensures Decided(cfg, g, r, i, s, fd, [])
  {
  }

  /** The handler up to its recursive call, and what it then comes to. */
  lemma {:induction false} FirstMessage(
    cfg: Config, g: State, i: nat, s: nat, fd: int, d: Decoder, chunk: Bytes, fed: Fed, now: int) returns (g2: State)
    requires At(g, i, s, fd, Connected) && d == g.slots[i].dec && Clean(d)
    requires fed.Complete? && fed == Feed(d, chunk)
    ensures Clean(fed.d) && |fed.rest| < |chunk| && DecodersOk(g2)
    ensures g2 == Message(cfg, Put(g, i, g.slots[i].(dec := fed.d)), i, fed.msg, now)
    ensures Drain(d, chunk).1 == [fed.msg] + Rest(fed.d, fed.rest)
    ensures Receive(cfg, g, fd, chunk, now).0 == Finally(cfg, g2, fd, fed.rest, now)
    ensures Receive(cfg, g, fd, chunk, now).1
            == (if Handle(cfg, g.slots[i].(dec := fed.d), fed.msg, now).ret != 0 then 1 else 0)
               + if fed.rest == [] then 0 else Receive(cfg, g2, fd, fed.rest, now).1
  {
    FeedFromClean(d, chunk);
    g2 := ReceiveOne(cfg, g, fd, i, chunk, fed, now);
  }

  /** A chunk on a slot that is not authorised is decided by the first request among its messages. */
  lemma {:induction false} ReceiveDecides(
    cfg: Config, g: State, i: nat, s: nat, fd: int, d: Decoder, chunk: Bytes, now: int)
    requires At(g, i, s, fd, Connected) && d == g.slots[i].dec
    ensures Clean(d) && Decided(cfg, g, Receive(cfg, g, fd, chunk, now).0, i, s, fd, Drain(d, chunk).1)
    decreases |chunk|
  {
    FeedFromClean(d, chunk);
    var fed := Feed(d, chunk);
    if fed.Waiting? {
      NoRequest(cfg, g, Put(g, i, g.slots[i].(dec := fed.d)), i, s, fd);
    } else {
      var g2 := FirstMessage(cfg, g, i, s, fd, d, chunk, fed, now);
      var r := Finally(cfg, g2, fd, fed.rest, now);
      if cfg.parse(fed.msg).Some? {
        FedRequest(cfg, g, g2, i, s, fd, fed, now);
      } else {
        FedOther(cfg, g, g2, i, s, fd, fed, now);
        if fed.rest == [] {
          NoRequest(cfg, g2, r, i, s, fd);
        } else {
          ReceiveDecides(cfg, g2, i, s, fd, fed.d, fed.rest, now);
        }
        SameStart(cfg, g, g2, r, i, s, fd, Rest(fed.d, fed.rest));
        DecidedByFirst(cfg, g, r, i, s, fd, fed.msg, Rest(fed.d, fed.rest));
      }
    }
  }

  // The slot's party as it was, in the same phase, and nothing reported.
  ghost predicate Unmoved(g: State, g2: State, i: nat) {
    && i < |g.slots| && i < |g2.slots| && g2.hist.log == g.hist.log
    && g2.slots[i].uid == g.slots[i].uid && g2.slots[i].area == g.slots[i].area && g2.slots[i].dst == g.slots[i].dst
  }

  lemma {:induction false} FedOther(
    cfg: Config, g: State, g2: State, i: nat, s: nat, fd: int, fed: Fed, now: int)
    requires At(g, i, s, fd, Connected) && fed.Complete? && Clean(fed.d) && cfg.parse(fed.msg).None?
    requires g2 == Message(cfg, Put(g, i, g.slots[i].(dec := fed.d)), i, fed.msg, now)
    ensures At(g2, i, s, fd, Connected) && g2.slots[i].dec == fed.d && Unmoved(g, g2, i)
  {
    RequestDecides(cfg, Put(g, i, g.slots[i].(dec := fed.d)), i, s, fd, fed.msg, now);
  }

  lemma {:induction false} FedRequest(
    cfg: Config, g: State, g2: State, i: nat, s: nat, fd: int, fed: Fed, now: int)
    requires At(g, i, s, fd, Connected) && fed.Complete? && Clean(fed.d) && cfg.parse(fed.msg).Some? && DecodersOk(g2)
    requires g2 == Message(cfg, Put(g, i, g.slots[i].(dec := fed.d)), i, fed.msg, now)
    ensures Decided(cfg, g, Finally(cfg, g2, fd, fed.rest, now), i, s, fd, [fed.msg] + Rest(fed.d, fed.rest))
  {
    var g1 := Put(g, i, g.slots[i].(dec := fed.d));
    ChunkAfterRequest(cfg, g1, g2, i, s, fd, fed.d, fed.msg, fed.rest, now);
    SameStart(cfg, g, g1, Finally(cfg, g2, fd, fed.rest, now), i, s, fd, [fed.msg] + Rest(fed.d, fed.rest));
  }

  lemma {:induction false} SameStart(
    cfg: Config, g: State, g2: State, r: State, i: nat, s: nat, fd: int, msgs: seq<Bytes>)
    requires Unmoved(g, g2, i) && Decided(cfg, g2, r, i, s, fd, msgs)
    ensures Decided(cfg, g, r, i, s, fd, msgs)
  {
  }

  lemma {:induction false} ChunkAfterRequest(
    cfg: Config, g: State, g2: State, i: nat, s: nat, fd: int, d: Decoder, msg: Bytes, rest: Bytes, now: int)
    requires At(g, i, s, fd, Connected) && cfg.parse(msg).Some? && Clean(d) && d == g.slots[i].dec
    requires g2 == Message(cfg, g, i, msg, now) && DecodersOk(g2)
    ensures Decided(cfg, g, Finally(cfg, g2, fd, rest, now), i, s, fd, [msg] + Rest(d, rest))
  {
    RequestDecides(cfg, g, i, s, fd, msg, now);
    FirstRequest(cfg, msg, Rest(d, rest));
    var auth := cfg.parse(msg).value;
    if auth.area in cfg.areas && cfg.needAuth && rest != [] {
      ReceivePending(cfg, g2, i, s, fd, rest, now);
    } else if auth.area in cfg.areas && !cfg.needAuth {
      if rest == [] {
        assert g2.hist.log + [] == g2.hist.log;
      } else {
        ReceiveForwards(cfg, g2, i, g2.slots[i], d, rest, now);
        SameReporter(g2.slots[i], Receive(cfg, g2, fd, rest, now).0.slots[i], i, Rest(d, rest));
      }
    }
  }

  lemma {:induction false} SameReporter(c: Conn, e: Conn, i: int, msgs: seq<Bytes>)
    requires SameParty(c, e)
    ensures DataReports(c, i, msgs) == DataReports(e, i, msgs)
    decreases |msgs|
  {
    if msgs != [] { SameReporter(c, e, i, msgs[1..]); }
  }

  // How many of the messages of a chunk fail on a slot that is not authorised: those ahead of the first request.
  ghost predicate Counts(cfg: Config, msgs: seq<Bytes>, code: int) {
    match FirstAuth(cfg, msgs)
    case None => code == |msgs|
    case Some(auth) =>
      var ahead := |msgs| - |Behind(cfg, msgs)| - 1;
      if auth.area in cfg.areas then code == ahead else ahead <= code <= ahead + 1
  }

  /**
    The handler's result counts the messages ahead of the first request.  A request that ends the
    session counts too, unless bytes follow it, which give -1.
   */
  lemma {:induction false} ReceiveCounts(
    cfg: Config, g: State, i: nat, s: nat, fd: int, d: Decoder, chunk: Bytes, now: int)
    requires At(g, i, s, fd, Connected) && d == g.slots[i].dec
    ensures Clean(d) && Counts(cfg, Drain(d, chunk).1, Receive(cfg, g, fd, chunk, now).1)
    decreases |chunk|
  {
    FeedFromClean(d, chunk);
    var fed := Feed(d, chunk);
    if fed.Complete? {
      var g2 := FirstMessage(cfg, g, i, s, fd, d, chunk, fed, now);
      var rest := Rest(fed.d, fed.rest);
      RequestDecides(cfg, Put(g, i, g.slots[i].(dec := fed.d)), i, s, fd, fed.msg, now);
      if cfg.parse(fed.msg).None? {
        if fed.rest != [] { ReceiveCounts(cfg, g2, i, s, fd, fed.d, fed.rest, now); }
        assert ([fed.msg] + rest)[1..] == rest;
      } else {
        FirstRequest(cfg, fed.msg, rest);
        RestCounts(cfg, g2, i, s, fd, fed.d, fed.rest, now);
      }
    }
  }

  // What follows a request adds nothing to the result, or -1 if the session is over.
  lemma {:induction false} RestCounts(cfg: Config, g: State, i: nat, s: nat, fd: int, d: Decoder, rest: Bytes, now: int)
    requires DecodersOk(g) && Clean(d)
    requires || (fd in g.fds ==> g.fds[fd] == 0)
             || ((At(g, i, s, fd, Authing) || At(g, i, s, fd, Authorized)) && g.slots[i].dec == d)
    ensures rest != [] ==> Receive(cfg, g, fd, rest, now).1 == if fd in g.fds && g.fds[fd] != 0 then 0 else -1
  {
    if rest != [] && At(g, i, s, fd, Authing) {
      ReceivePending(cfg, g, i, s, fd, rest, now);
    } else if rest != [] && At(g, i, s, fd, Authorized) {
      ReceiveForwards(cfg, g, i, g.slots[i], d, rest, now);
    }
  }

  // ---------------------------------------------------------------- whole runs

  lemma {:induction false} MessageLogGrows(cfg: Config, g: State, i: nat, msg: Bytes, now: int)
    requires i < |g.slots|
    ensures g.hist.log <= Message(cfg, g, i, msg, now).hist.log
  {
  }

  lemma {:induction false} ReceiveLogGrows(cfg: Config, g: State, fd: int, chunk: Bytes, now: int)
    requires DecodersOk(g)
    ensures g.hist.log <= Receive(cfg, g, fd, chunk, now).0.hist.log
    decreases |chunk|
  {
    var at := ByFd(g, fd);
    if at.Some? {
      var i := at.value;
      FeedFromClean(g.slots[i].dec, chunk);
      var fed := Feed(g.slots[i].dec, chunk);
      if fed.Complete? {
        var g2 := ReceiveOne(cfg, g, fd, i, chunk, fed, now);
        MessageLogGrows(cfg, Put(g, i, g.slots[i].(dec := fed.d)), i, fed.msg, now);
        if fed.rest != [] { ReceiveLogGrows(cfg, g2, fd, fed.rest, now); }
      }
    }
  }

  lemma {:induction false} StepLogGrows(cfg: Config, g: State, st: Step)
    requires Enabled(cfg, g, st)
    ensures g.hist.log <= Apply(cfg, g, st).hist.log
  {
    if st.SReceive? {
      ReceiveLogGrows(cfg, g, st.fd, st.chunk, st.now);
    } else if !st.SAgentData? && !Admits(cfg, g, st) {
      StepCalm(cfg, g, st);
    }
  }

  lemma {:induction false} TraceGrows(log: seq<Logged>, more: seq<Logged>, s: nat)
    requires log <= more
    ensures Trace(log, s) <= Trace(more, s)
    ensures Trace(log, s) == [] && Trace(more, s) != [] ==>
              exists k :: |log| <= k < |more| && more[k] == Logged(s, Trace(more, s)[0])
    decreases |more|
  {
    if log == more {
    } else {
      var init := more[..|more| - 1];
      TraceGrows(log, init, s);
      if Trace(log, s) == [] && Trace(init, s) != [] {
        var k :| |log| <= k < |init| && init[k] == Logged(s, Trace(init, s)[0]);
        assert more[k] == Logged(s, Trace(more, s)[0]);
      } else if Trace(init, s) == [] && more[|more| - 1].session == s {
        assert Trace(more, s) == [more[|more| - 1].report];
      }
    }
  }

  /**
    The step is a chunk on the connection of session s, which is not authorised, and the first
    request among the messages it completes is `auth`.
   */
  ghost predicate Asks(cfg: Config, g: State, st: Step, s: nat, auth: AuthReq) {
    st.SReceive? && exists i :: Serves(g, i, s) && g.slots[i].fd == st.fd && g.slots[i].phase.Connected?
                                && FirstAuth(cfg, Take(g.slots[i].dec.msgLen, st.chunk).msgs) == Some(auth)
  }

  /** A step of the run is the request of session s. */
  ghost predicate AskedIn(cfg: Config, g: State, steps: seq<Step>, s: nat, auth: AuthReq)
    requires CanRun(cfg, g, steps)
    decreases |steps|
  {
    && steps != []
    && (Asks(cfg, g, steps[0], s, auth) || AskedIn(cfg, Apply(cfg, g, steps[0]), steps[1..], s, auth))
  }

  // A chunk on the slot of session s, of which nothing has been reported.
  lemma {:induction false} OwnChunkOpens(cfg: Config, g: State, i: nat, s: nat, chunk: Bytes, now: int)
    returns (auth: AuthReq)
    requires Inv(g) && TracesOk(cfg, g) && Serves(g, i, s) && Trace(g.hist.log, s) == []
    requires var tr := Trace(Receive(cfg, g, g.slots[i].fd, chunk, now).0.hist.log, s); tr != [] && tr[0].body.Opened?
    ensures auth.area in cfg.areas && Asks(cfg, g, SReceive(g.slots[i].fd, chunk, now), s, auth)
    ensures Trace(Receive(cfg, g, g.slots[i].fd, chunk, now).0.hist.log, s)[0] == OpenedFor(cfg, s, i, auth).report
  {
    var c := g.slots[i];
    var r := Receive(cfg, g, c.fd, chunk, now).0;
    assert Fits(cfg, c, i, Trace(g.hist.log, s));
    if c.phase.Connected? {
      ReceiveDecides(cfg, g, i, s, c.fd, c.dec, chunk, now);
      DrainIsTake(c.dec, chunk);
      var first := FirstAuth(cfg, Take(c.dec.msgLen, chunk).msgs);
      FirstReport(g.hist.log, r.hist.log, s);
      assert first.Some?;
      auth := first.value;
    } else {
      ReceivePending(cfg, g, i, s, c.fd, chunk, now);
      assert false;
    }
  }

  lemma {:induction false} FirstReport(log: seq<Logged>, more: seq<Logged>, s: nat)
    requires Trace(log, s) == []
    ensures log < more && more[|log|].session == s ==> Trace(more, s) != [] && Trace(more, s)[0] == more[|log|].report
  {
    if log < more && more[|log|].session == s {
      var one := more[..|log| + 1];
      assert one[..|log|] == log && Trace(one, s) == [more[|log|].report];
      TraceGrows(one, more, s);
    }
  }

  /** The step that opens a session is its own request, and the report names that request's user and area. */
  lemma {:induction false} StepOpens(cfg: Config, g: State, st: Step, s: nat) returns (auth: AuthReq)
    requires Inv(g) && TracesOk(cfg, g) && Enabled(cfg, g, st) && Trace(g.hist.log, s) == []
    requires var tr := Trace(Apply(cfg, g, st).hist.log, s); tr != [] && tr[0].body.Opened?
    ensures auth.area in cfg.areas && Asks(cfg, g, st, s, auth)
    ensures About(Trace(Apply(cfg, g, st).hist.log, s)[0], cfg.areas[auth.area], auth.uid, auth.area)
  {
    StepLogGrows(cfg, g, st);
    TraceGrows(g.hist.log, Apply(cfg, g, st).hist.log, s);
    if st.SReceive? {
      var i := WhoOpens(cfg, g, st.fd, st.chunk, st.now, s);
      auth := OwnChunkOpens(cfg, g, i, s, st.chunk, st.now);
    } else {
      if !st.SAgentData? && !Admits(cfg, g, st) { StepCalm(cfg, g, st); }
      assert false;
    }
  }

  // A chunk that changes what is reported of s comes on the connection of s.
  lemma {:induction false} WhoOpens(cfg: Config, g: State, fd: int, chunk: Bytes, now: int, s: nat) returns (i: nat)
    requires Inv(g) && TracesOk(cfg, g) && Trace(g.hist.log, s) == []
    requires Trace(Receive(cfg, g, fd, chunk, now).0.hist.log, s) != []
    ensures Serves(g, i, s) && g.slots[i].fd == fd
  {
    var r := Receive(cfg, g, fd, chunk, now).0;
    ReceiveKeepsTraces(cfg, g, fd, chunk, now);
    ReceiveOnlyCloses(cfg, g, fd, chunk, now);
    assert s < g.hist.sessions;
    assert LiveSession(g, s);
    i :| Serves(g, i, s);
    if g.slots[i].fd != fd { ReceiveElsewhere(cfg, g, fd, chunk, now, i); }
  }

  lemma {:induction false} RunOpens(cfg: Config, g: State, steps: seq<Step>, s: nat) returns (auth: AuthReq)
    requires Inv(g) && TracesOk(cfg, g) && CanRun(cfg, g, steps) && Trace(g.hist.log, s) == []
    requires var tr := Trace(Run(cfg, g, steps).hist.log, s); tr != [] && tr[0].body.Opened?
    ensures auth.area in cfg.areas && AskedIn(cfg, g, steps, s, auth)
    ensures About(Trace(Run(cfg, g, steps).hist.log, s)[0], cfg.areas[auth.area], auth.uid, auth.area)
    decreases |steps|
  {
    var g1 := Apply(cfg, g, steps[0]);
    ApplyKeeps(cfg, g, steps[0]);
    ApplyKeepsTraces(cfg, g, steps[0]);
    if Trace(g1.hist.log, s) == [] {
      auth := RunOpens(cfg, g1, steps[1..], s);
    } else {
      RunLogGrows(cfg, g1, steps[1..]);
      TraceGrows(g1.hist.log, Run(cfg, g1, steps[1..]).hist.log, s);
      auth := StepOpens(cfg, g, steps[0], s);
    }
  }

  lemma {:induction false} RunLogGrows(cfg: Config, g: State, steps: seq<Step>)
    requires CanRun(cfg, g, steps)
    ensures g.hist.log <= Run(cfg, g, steps).hist.log
    decreases |steps|
  {
    if steps != [] {
      StepLogGrows(cfg, g, steps[0]);
      RunLogGrows(cfg, Apply(cfg, g, steps[0]), steps[1..]);
    }
  }

  /**
    In every run, every report of a session that was opened, the CLOSE included, names the user and
    area of the first request that its own connection sent, and goes to the channel that area is
    mapped to.
   */
  lemma {:induction false} ReportsNameTheRequest(cfg: Config, max: nat, ms: int, steps: seq<Step>, s: nat)
    requires CanRun(cfg, Initial(max, ms), steps) && s < Run(cfg, Initial(max, ms), steps).hist.sessions
    requires var tr := Trace(Run(cfg, Initial(max, ms), steps).hist.log, s); tr != [] && tr[0].body.Opened?
    ensures var tr := Trace(Run(cfg, Initial(max, ms), steps).hist.log, s);
            exists auth: AuthReq :: AskedIn(cfg, Initial(max, ms), steps, s, auth) && auth.area in cfg.areas
              && forall k :: 0 <= k < |tr| ==> About(tr[k], cfg.areas[auth.area], auth.uid, auth.area)
  {
    InitialInv(max, ms);
    EverySessionKeepsTheProtocol(cfg, max, ms, steps, s);
    var auth := RunOpens(cfg, Initial(max, ms), steps, s);
    assert Routed(cfg, Trace(Run(cfg, Initial(max, ms), steps).hist.log, s));
  }

  // ---------------------------------------------------------------- how a session ends

  /** Why a step ends a session: idle 0, the client 1, a bad request 3, or as the agent or the shutdown says. */
  function ReasonOf(st: Step): (reason: int) {
    match st
    case SPeerClose(_) => 1
    case SReceive(_, _, _) => 3
    case SAgentClose(_, reason) => reason
    case SClose(reason, _) => reason
    case _ => 0
  }

  // The one report that session's slot i was left with: its CLOSE.
  ghost predicate ClosedWith(g: State, r: State, i: nat, reason: int) {
    && LiveAt(g, i)
    && var c := g.slots[i];
       Trace(r.hist.log, c.session)
       == Trace(g.hist.log, c.session) + [Report(c.dst, 0, c.uid, c.area, Closed(reason))]
  }

  lemma {:induction false} RemoveCloses(g: State, i: nat, reason: int)
    requires LiveAt(g, i)
    ensures ClosedWith(g, Remove(g, i, reason), i, reason)
  {
    RemoveLogs(g, i, reason);
  }

  lemma {:induction false} SweepCloses(g: State, reason: int, n: int, i: nat)
    requires Inv(g) && g.closing != 0 && LiveAt(g, i) && !Serves(Sweep(g, reason, n), i, g.slots[i].session)
    ensures ClosedWith(g, Sweep(g, reason, n), i, reason)
    decreases n
  {
    var g1 := SweepOne(g, reason);
    SweepOneKeeps(g, reason);
    if g.sweep == i && ByIdx(g, i).Some? {
      RemoveCloses(g, i, reason);
      SweepLeavesAlone(g1, reason, n - 1, g.slots[i].session);
    } else {
      if ByIdx(g, g.sweep).Some? {
        RemoveShape(g, g.sweep, reason);
        RemoveElsewhere(g, g.sweep, reason, i);
      }
      SweepCloses(g1, reason, n - 1, i);
    }
  }

  // A session that no slot serves is not reported any more.
  lemma {:induction false} SweepLeavesAlone(g: State, reason: int, n: int, s: nat)
    requires Inv(g) && g.closing != 0 && !LiveSession(g, s)
    ensures Silent(g, Sweep(g, reason, n), s)
    decreases n
  {
    if 0 < n && g.sweep < |g.slots| {
      var g1 := SweepOne(g, reason);
      SweepOneKeeps(g, reason);
      if ByIdx(g, g.sweep).Some? {
        assert Serves(g, g.sweep, g.slots[g.sweep].session);
        RemoveLogs(g, g.sweep, reason);
        RemoveShape(g, g.sweep, reason);
      }
      assert forall i :: Serves(g1, i, s) ==> Serves(g, i, s);
      SweepLeavesAlone(g1, reason, n - 1, s);
    }
  }

  lemma {:induction false} ReceiveCloses(cfg: Config, g: State, fd: int, chunk: Bytes, now: int, i: nat)
    requires Inv(g) && LiveAt(g, i) && !Serves(Receive(cfg, g, fd, chunk, now).0, i, g.slots[i].session)
    ensures ClosedWith(g, Receive(cfg, g, fd, chunk, now).0, i, 3)
  {
    var c := g.slots[i];
    if c.fd != fd {
      ReceiveElsewhere(cfg, g, fd, chunk, now, i);
    } else if c.phase.Connected? {
      ReceiveDecides(cfg, g, i, c.session, fd, c.dec, chunk, now);
    } else if c.phase.Authing? {
      ReceivePending(cfg, g, i, c.session, fd, chunk, now);
    } else {
      ReceiveForwards(cfg, g, i, c, c.dec, chunk, now);
    }
  }

  lemma {:induction false} FireCloses(cfg: Config, g: State, pos: nat, now: int, i: nat)
    requires Inv(g) && AtDue(Walk(g.timers, pos)) && LiveAt(g, i)
    requires !Serves(FireAt(cfg, g, pos, now), i, g.slots[i].session)
    ensures ClosedWith(g, FireAt(cfg, g, pos, now), i, 0)
  {
    var id := g.timers.entries[pos].id;
    var g1 := g.(timers := Pop(Walk(g.timers, pos)).q);
    if id in g.timers.events {
      var j := g.timers.events[id].code;
      if j == i {
        RemoveCloses(g1, i, CLOSE_BY_DEFAULT);
      } else if ByIdx(g1, j).Some? && g1.slots[j].lastAct + cfg.idle < now {
        RemoveShape(g1, j, CLOSE_BY_DEFAULT);
      }
    }
  }

  lemma {:induction false} PeerCloses(g: State, fd: int, i: nat)
    requires LiveAt(g, i) && !Serves(PeerClose(g, fd), i, g.slots[i].session)
    ensures ClosedWith(g, PeerClose(g, fd), i, 1)
  {
    var g1 := Uncounted(g, fd);
    var at := ByFd(g1, fd);
    if at == Some(i) {
      RemoveCloses(g1, i, CLOSE_BY_CLIENT);
    } else if at.Some? {
      RemoveShape(g1, at.value, CLOSE_BY_CLIENT);
    }
  }

  lemma {:induction false} AgentCloses(g: State, idx: int, reason: int, i: nat)
    requires LiveAt(g, i) && !Serves(AgentClose(g, idx, reason), i, g.slots[i].session)
    ensures ClosedWith(g, AgentClose(g, idx, reason), i, reason)
  {
    if idx == i { RemoveCloses(g, i, reason); } else if ByIdx(g, idx).Some? { RemoveShape(g, idx, reason); }
  }

  lemma {:induction false} ShutdownCloses(g: State, reason: int, n: int, i: nat)
    requires Inv(g) && reason != 0 && LiveAt(g, i) && !Serves(Close(g, reason, n).0, i, g.slots[i].session)
    ensures ClosedWith(g, Close(g, reason, n).0, i, reason)
  {
    var g1 := if g.closing == 0 then g.(closing := reason) else g;
    AlikeKeeps(g, g1);
    SweepCloses(g1, reason, n, i);
  }

  lemma {:induction false} AcceptEndsNone(cfg: Config, g: State, st: Step, i: nat)
    requires st.SAccept? && Enabled(cfg, g, st) && LiveAt(g, i)
    ensures Serves(Apply(cfg, g, st), i, g.slots[i].session)
  {
    if Admits(cfg, g, st) { AdmittedShape(cfg, g, st.fd, st.created, st.sent, st.now); }
  }

  /**
    A step after which a slot does not serve its session any more adds exactly one report to that
    session: a CLOSE to its own channel, about its own user and area, with the reason the step has.
   */
  lemma {:induction false} EndIsReported(cfg: Config, g: State, st: Step, i: nat)
    requires Inv(g) && Enabled(cfg, g, st) && LiveAt(g, i)
    requires !Serves(Apply(cfg, g, st), i, g.slots[i].session)
    ensures ClosedWith(g, Apply(cfg, g, st), i, ReasonOf(st))
    ensures !st.SAccept? && !st.SAgentData? && !st.SClock?
  {
    match st
    case SAccept(_, _, _, _) => AcceptEndsNone(cfg, g, st, i);
    case SReceive(fd, chunk, now) => ReceiveCloses(cfg, g, fd, chunk, now, i);
    case SPeerClose(fd) => PeerCloses(g, fd, i);
    case SAgentClose(idx, reason) => AgentCloses(g, idx, reason, i);
    case SFire(pos, now) => FireCloses(cfg, g, pos, now, i);
    case SClose(reason, n) => ShutdownCloses(g, reason, n, i);
    case _ =>
  }
}
