/**
  How the bytes a client sends reach its agent: the chunks of one connection, in any run and mixed
  with whatever else the gate does, become DATA reports of its session, and each report becomes a
  channel message that the agent takes apart again, or is dropped on the way.
 */
module GateStreams {
  import opened Values
  import opened FrameDecoder
  import opened Timers
  import opened Gate
  import opened GateTable
  import opened GateSessions
  import opened ChannelFraming

  // ---------------------------------------------------------------- one chunk

  /** The DATA reports for messages of slot `i`. */
  function DataReports(c: Conn, i: int, msgs: seq<Bytes>): (r: seq<Logged>)
    decreases |msgs|
  {
    if msgs == [] then []
    else [Logged(c.session, Report(c.dst, i, c.uid, c.area, Data(msgs[0])))] + DataReports(c, i, msgs[1..])
  }

  // The fields of a connection that its reports are made of, its socket and its state.
  predicate SameParty(c: Conn, d: Conn) {
    c.session == d.session && c.dst == d.dst && c.uid == d.uid && c.area == d.area && c.fd == d.fd && c.phase == d.phase
  }

  // Slot i serves `c`, authorised, with its decoder in state `d`.
  ghost predicate Forwarding(g: State, i: nat, c: Conn, d: Decoder) {
    && DecodersOk(g) && 0 < i < |g.slots| && c.fd in g.fds && g.fds[c.fd] == i
    && SameParty(c, g.slots[i]) && c.phase.Authorized? && g.slots[i].dec == d
  }

  /** A chunk on an authorised connection: one DATA report for each message it completes, in order, and no failure. */
  lemma {:induction false} ReceiveForwards(cfg: Config, g: State, i: nat, c: Conn, d: Decoder, chunk: Bytes, now: int)
    requires Forwarding(g, i, c, d)
    ensures Clean(d)
    ensures var r := Receive(cfg, g, c.fd, chunk, now).0;
            && Forwarding(r, i, c, Drain(d, chunk).0)
            && r.hist.log == g.hist.log + DataReports(c, i, Drain(d, chunk).1)
            && r.slots[i].lastAct == (if Drain(d, chunk).1 == [] then g.slots[i].lastAct else now)
    ensures Receive(cfg, g, c.fd, chunk, now).1 == 0
    decreases |chunk|
  {
    FeedFromClean(d, chunk);
    var g2 := FeedOne(cfg, g, i, c, d, chunk, now);
    var fed := Feed(d, chunk);
    if fed.Complete? {
      if fed.rest != [] {
        ReceiveForwards(cfg, g2, i, c, fed.d, fed.rest, now);
        var rest := Drain(fed.d, fed.rest).1;
        assert Drain(d, chunk).1 == [fed.msg] + rest;
        ReportsOfConcat(c, i, [fed.msg], rest);
        LogAssoc(g.hist.log, DataReports(c, i, [fed.msg]), DataReports(c, i, rest));
      }
    }
  }

  lemma {:induction false} LogAssoc(a: seq<Logged>, b: seq<Logged>, c: seq<Logged>)
    ensures (a + b) + c == a + (b + c)
  {
  }

  /** The handler up to its recursive call, which starts from `g2`. */
  lemma {:induction false} FeedOne(cfg: Config, g: State, i: nat, c: Conn, d: Decoder, chunk: Bytes, now: int)
    returns (g2: State)
    requires Forwarding(g, i, c, d) && Clean(d)
    ensures var fed := Feed(d, chunk);
            && !fed.Corrupt? && Forwarding(g2, i, c, fed.d) && Clean(fed.d)
            && g2.hist.log == g.hist.log + DataReports(c, i, if fed.Complete? then [fed.msg] else [])
            && g2.slots[i].lastAct == (if fed.Complete? then now else g.slots[i].lastAct)
            && Receive(cfg, g, c.fd, chunk, now).0
               == (if fed.Waiting? || fed.rest == [] then g2 else Receive(cfg, g2, c.fd, fed.rest, now).0)
            && Receive(cfg, g, c.fd, chunk, now).1
               == (if fed.Waiting? || fed.rest == [] then 0 else Receive(cfg, g2, c.fd, fed.rest, now).1)
  {
    FeedFromClean(d, chunk);
    var fed := Feed(d, chunk);
    if fed.Complete? {
      g2 := ReceiveOne(cfg, g, c.fd, i, chunk, fed, now);
      MessageForwards(cfg, Put(g, i, g.slots[i].(dec := fed.d)), i, c, fed.msg, now);
    } else {
      g2 := Put(g, i, g.slots[i].(dec := fed.d));
    }
  }

  lemma {:induction false} MessageForwards(cfg: Config, g: State, i: nat, c: Conn, msg: Bytes, now: int)
    requires 0 < i < |g.slots| && Forwarding(g, i, c, g.slots[i].dec)
    ensures var r := Message(cfg, g, i, msg, now);
            && Forwarding(r, i, c, g.slots[i].dec) && r.slots[i].lastAct == now
            && r.hist.log == g.hist.log + DataReports(c, i, [msg])
  {
    MessageKeepsDecoders(cfg, g, i, msg, now);
    assert [msg][1..] == [];
  }

  lemma {:induction false} ReportsOfConcat(c: Conn, i: int, a: seq<Bytes>, b: seq<Bytes>)
    ensures DataReports(c, i, a + b) == DataReports(c, i, a) + DataReports(c, i, b)
    decreases |a|
  {
    if a == [] {
      assert a + b == b;
    } else {
      assert (a + b)[1..] == a[1..] + b;
      ReportsOfConcat(c, i, a[1..], b);
    }
  }

  // ---------------------------------------------------------------- what the other steps leave alone

  // As seen from session s: its reports are the same.
  ghost predicate Silent(g: State, r: State, s: nat) {
    Trace(r.hist.log, s) == Trace(g.hist.log, s)
  }

  lemma {:induction false} RemoveElsewhere(g: State, j: nat, reason: int, i: nat)
    requires SessionsOk(g) && LiveAt(g, j) && LiveAt(g, i) && i != j
    ensures var r := Remove(g, j, reason);
            r.slots[i] == g.slots[i] && Silent(g, r, g.slots[i].session)
  {
    RemoveShape(g, j, reason);
    RemoveLogs(g, j, reason);
    var c := g.slots[j];
    var l := Logged(c.session, Report(c.dst, 0, c.uid, c.area, Closed(reason)));
  }

  lemma {:induction false} TellElsewhere(g: State, j: nat, body: Body, s: nat)
    requires j < |g.slots| && g.slots[j].session != s
    ensures Silent(g, Tell(g, j, body), s) && Tell(g, j, body).slots == g.slots
  {
    var log := Tell(g, j, body).hist.log;
    assert log == g.hist.log + [log[|g.hist.log|]];
  }

  lemma {:induction false} MessageElsewhere(cfg: Config, g: State, j: nat, msg: Bytes, now: int, i: nat)
    requires Inv(g) && LiveAt(g, j) && LiveAt(g, i) && i != j
    ensures var r := Message(cfg, g, j, msg, now);
            r.slots[i] == g.slots[i] && Silent(g, r, g.slots[i].session)
  {
    var h := Handle(cfg, g.slots[j], msg, now);
    var g1 := Put(g, j, h.c);
    PutKeeps(g, j, h.c);
    match h.action
    case Stay =>
    case Say(body) => TellElsewhere(g1, j, body, g.slots[i].session);
    case Drop => RemoveElsewhere(g1, j, CLOSE_EXCEPTION, i);
  }

  lemma {:induction false} ReceiveElsewhere(cfg: Config, g: State, fd: int, chunk: Bytes, now: int, i: nat)
    requires Inv(g) && LiveAt(g, i) && g.slots[i].fd != fd
    ensures var r := Receive(cfg, g, fd, chunk, now).0;
            r.slots[i] == g.slots[i] && Silent(g, r, g.slots[i].session)
    decreases |chunk|
  {
    var at := ByFd(g, fd);
    if at.Some? {
      var j := at.value;
      FeedFromClean(g.slots[j].dec, chunk);
      var fed := Feed(g.slots[j].dec, chunk);
      var g1 := Put(g, j, g.slots[j].(dec := fed.d));
      PutKeeps(g, j, g.slots[j].(dec := fed.d));
      if fed.Complete? {
        var g2 := Message(cfg, g1, j, fed.msg, now);
        MessageKeeps(cfg, g1, j, fed.msg, now);
        MessageElsewhere(cfg, g1, j, fed.msg, now, i);
        if fed.rest != [] { ReceiveElsewhere(cfg, g2, fd, fed.rest, now, i); }
      }
    }
  }

  // If slot i still serves its session, the session's connection and reports are as they were.
  ghost predicate Aside(g: State, r: State, i: nat) {
    LiveAt(g, i) && Serves(r, i, g.slots[i].session) ==>
      && SameParty(g.slots[i], r.slots[i]) && r.slots[i].dec == g.slots[i].dec
      && Silent(g, r, g.slots[i].session)
  }

  lemma {:induction false} RemoveAside(g: State, j: nat, reason: int, i: nat)
    requires SessionsOk(g) && LiveAt(g, j)
    ensures Aside(g, Remove(g, j, reason), i)
  {
    RemoveShape(g, j, reason);
    if LiveAt(g, i) && i != j { RemoveElsewhere(g, j, reason, i); }
  }

  lemma {:induction false} SweepAside(g: State, reason: int, n: int, i: nat)
    requires Inv(g) && g.closing != 0
    ensures Aside(g, Sweep(g, reason, n), i)
    ensures var r := Sweep(g, reason, n);
            LiveAt(r, i) ==> LiveAt(g, i) && r.slots[i].session == g.slots[i].session
    decreases n
  {
    if 0 < n && g.sweep < |g.slots| {
      var g1 := SweepOne(g, reason);
      SweepOneKeeps(g, reason);
      AgentOnlyCloses(g, g.sweep, reason);
      if ByIdx(g, g.sweep).Some? { RemoveAside(g, g.sweep, reason, i); }
      SweepAside(g1, reason, n - 1, i);
    }
  }

  lemma {:induction false} CloseAside(g: State, reason: int, n: int, i: nat)
    requires Inv(g) && reason != 0
    ensures Aside(g, Close(g, reason, n).0, i)
    ensures var r := Close(g, reason, n).0;
            && r.hist.sessions == g.hist.sessions
            && (LiveAt(r, i) ==> LiveAt(g, i) && r.slots[i].session == g.slots[i].session)
  {
    var g1 := if g.closing == 0 then g.(closing := reason) else g;
    AlikeKeeps(g, g1);
    SweepKeeps(g1, reason, n);
    SweepAside(g1, reason, n, i);
  }

  lemma {:induction false} FireAside(cfg: Config, g: State, pos: nat, now: int, i: nat)
    requires Inv(g) && AtDue(Walk(g.timers, pos))
    ensures Aside(g, FireAt(cfg, g, pos, now), i)
  {
    var id := g.timers.entries[pos].id;
    PopKeeps(g, pos);
    if id in g.timers.events {
      CheckIdleAside(cfg, g.(timers := Pop(Walk(g.timers, pos)).q), g.timers.events[id].code, now, i);
    }
  }

  lemma {:induction false} CheckIdleAside(cfg: Config, g: State, j: int, now: int, i: nat)
    requires SessionsOk(g)
    ensures Aside(g, CheckIdle(cfg, g, j, now), i)
  {
    if ByIdx(g, j).Some? && g.slots[j].lastAct + cfg.idle < now { RemoveAside(g, j, CLOSE_BY_DEFAULT, i); }
  }

  lemma {:induction false} PeerCloseAside(g: State, fd: int, i: nat)
    requires Inv(g)
    ensures Aside(g, PeerClose(g, fd), i)
  {
    var g1 := Uncounted(g, fd);
    AlikeKeeps(g, g1);
    var at := ByFd(g1, fd);
    if at.Some? { RemoveAside(g1, at.value, CLOSE_BY_CLIENT, i); }
  }

  lemma {:induction false} AcceptAside(cfg: Config, g: State, fd: int, created: bool, sent: bool, now: int, i: nat)
    requires !Accept(cfg, g, fd, created, sent, now).Undefined?
    ensures Aside(g, Accept(cfg, g, fd, created, sent, now).g, i)
  {
    if Accept(cfg, g, fd, created, sent, now).Admitted? { AdmittedShape(cfg, g, fd, created, sent, now); }
  }

  predicate OwnChunk(st: Step, fd: int) {
    st.SReceive? && st.fd == fd
  }

  /** No step but a chunk of its own touches what a session that goes on depends on. */
  lemma {:induction false} StepAside(cfg: Config, g: State, st: Step, i: nat)
    requires Inv(g) && Enabled(cfg, g, st) && LiveAt(g, i) && !OwnChunk(st, g.slots[i].fd)
    ensures Aside(g, Apply(cfg, g, st), i)
  {
    match st
    case SAccept(fd, created, sent, now) => AcceptAside(cfg, g, fd, created, sent, now, i);
    case SReceive(fd, chunk, now) => ReceiveElsewhere(cfg, g, fd, chunk, now, i);
    case SPeerClose(fd) => PeerCloseAside(g, fd, i);
    case SAgentClose(idx, reason) => if ByIdx(g, idx).Some? { RemoveAside(g, idx, reason, i); }
    case SAgentData(idx, bytes, now) =>
    case SFire(pos, now) => FireAside(cfg, g, pos, now, i);
    case SClock(ms) =>
    case SClose(reason, n) => CloseAside(g, reason, n, i);
  }

  /** A session that slot i does not serve any more is not served by it again. */
  lemma {:induction false} NoReturn(cfg: Config, g: State, st: Step, i: nat, s: nat)
    requires Inv(g) && Enabled(cfg, g, st) && s < g.hist.sessions
    ensures s < Apply(cfg, g, st).hist.sessions && (Serves(Apply(cfg, g, st), i, s) ==> Serves(g, i, s))
  {
    if st.SClose? {
      CloseAside(g, st.reason, st.n, i);
    } else if st.SAccept? && Accept(cfg, g, st.fd, st.created, st.sent, st.now).Admitted? {
      AdmittedShape(cfg, g, st.fd, st.created, st.sent, st.now);
    } else {
      StepOnlyCloses(cfg, g, st);
    }
  }

  /** A slot that is live after a step served the same session before it, unless the step admits it. */
  lemma {:induction false} OldOrAdmitted(cfg: Config, g: State, st: Step, i: nat)
    requires Inv(g) && Enabled(cfg, g, st) && LiveAt(Apply(cfg, g, st), i)
    ensures Serves(g, i, Apply(cfg, g, st).slots[i].session)
            || (st.SAccept? && Accept(cfg, g, st.fd, st.created, st.sent, st.now).Admitted?
                && NextIdx(Counted(g, st.fd)) == Some(i))
  {
    if st.SClose? {
      CloseAside(g, st.reason, st.n, i);
    } else if st.SAccept? && Accept(cfg, g, st.fd, st.created, st.sent, st.now).Admitted? {
      AdmittedShape(cfg, g, st.fd, st.created, st.sent, st.now);
    } else {
      StepOnlyCloses(cfg, g, st);
    }
  }

  lemma {:induction false} NoReturnInRun(cfg: Config, g: State, steps: seq<Step>, i: nat, s: nat)
    requires Inv(g) && CanRun(cfg, g, steps) && s < g.hist.sessions && Serves(Run(cfg, g, steps), i, s)
    ensures Serves(g, i, s)
    decreases |steps|
  {
    if steps != [] {
      ApplyKeeps(cfg, g, steps[0]);
      NoReturn(cfg, g, steps[0], i, s);
      NoReturnInRun(cfg, Apply(cfg, g, steps[0]), steps[1..], i, s);
    }
  }

  // ---------------------------------------------------------------- the chunks of a run

  /** The chunks that arrive on a socket, in order. */
  function ChunksOf(steps: seq<Step>, fd: int): (r: seq<Bytes>)
    decreases |steps|
  {
    if steps == [] then []
    else (if OwnChunk(steps[0], fd) then [steps[0].chunk] else []) + ChunksOf(steps[1..], fd)
  }

  function Reports(c: Conn, i: int, msgs: seq<Bytes>): (r: seq<Report>)
    ensures |r| == |msgs|
    ensures forall k :: 0 <= k < |msgs| ==> r[k] == Report(c.dst, i, c.uid, c.area, Data(msgs[k]))
  {
    seq(|msgs|, k requires 0 <= k < |msgs| => Report(c.dst, i, c.uid, c.area, Data(msgs[k])))
  }

  lemma {:induction false} TraceOfReports(log: seq<Logged>, c: Conn, i: int, msgs: seq<Bytes>)
    ensures Trace(log + DataReports(c, i, msgs), c.session) == Trace(log, c.session) + Reports(c, i, msgs)
    decreases |msgs|
  {
    if msgs == [] {
      assert log + [] == log;
    } else {
      var l := Logged(c.session, Report(c.dst, i, c.uid, c.area, Data(msgs[0])));
      TraceOfReports(log + [l], c, i, msgs[1..]);
      LogAssoc(log, [l], DataReports(c, i, msgs[1..]));
    }
  }

  // Slot i serves `c`, authorised, in a state that satisfies the invariant.
  ghost predicate Served(g: State, i: nat, c: Conn) {
    Inv(g) && LiveAt(g, i) && SameParty(c, g.slots[i]) && c.phase.Authorized?
  }

  /** A chunk of its own is reported as its messages, in order, and leaves the session going on. */
  lemma {:induction false} OwnChunkReported(cfg: Config, g: State, i: nat, c: Conn, chunk: Bytes, now: int)
    requires Served(g, i, c)
    ensures var r := Receive(cfg, g, c.fd, chunk, now).0;
            var first := Take(g.slots[i].dec.msgLen, chunk);
            && Served(r, i, c) && r.slots[i].dec.msgLen == first.want
            && Trace(r.hist.log, c.session) == Trace(g.hist.log, c.session) + Reports(c, i, first.msgs)
  {
    var d := g.slots[i].dec;
    ReceiveForwards(cfg, g, i, c, d, chunk, now);
    DrainIsTake(d, chunk);
    ReceiveKeeps(cfg, g, c.fd, chunk, now);
    TraceOfReports(g.hist.log, c, i, Take(d.msgLen, chunk).msgs);
  }

  /**
    In every run in which the session goes on to the end, whatever the run does besides: its
    reports are those of the messages that its own chunks decode to, in order.
   */
  lemma {:induction false} RunReports(cfg: Config, g: State, i: nat, c: Conn, steps: seq<Step>)
    requires Served(g, i, c) && CanRun(cfg, g, steps) && Serves(Run(cfg, g, steps), i, c.session)
    ensures var r := Run(cfg, g, steps);
            var all := TakeAll(g.slots[i].dec.msgLen, ChunksOf(steps, c.fd));
            && Served(r, i, c) && r.slots[i].dec.msgLen == all.want
            && Trace(r.hist.log, c.session) == Trace(g.hist.log, c.session) + Reports(c, i, all.msgs)
    decreases |steps|
  {
    if steps == [] {
      assert Trace(g.hist.log, c.session) + Reports(c, i, []) == Trace(g.hist.log, c.session);
    } else {
      var st := steps[0];
      var g1 := Apply(cfg, g, st);
      ApplyKeeps(cfg, g, st);
      NoReturn(cfg, g, st, i, c.session);
      NoReturnInRun(cfg, g1, steps[1..], i, c.session);
      if OwnChunk(st, c.fd) {
        OwnChunkReported(cfg, g, i, c, st.chunk, st.now);
      } else {
        StepAside(cfg, g, st, i);
      }
      RunReports(cfg, g1, i, c, steps[1..]);
      ReportsJoin(g, g1, Run(cfg, g, steps), i, c, steps);
    }
  }

  lemma {:induction false} TakeAllFirst(want: nat, chunk: Bytes, later: seq<Bytes>)
    ensures var first := Take(want, chunk);
            var more := TakeAll(first.want, later);
            TakeAll(want, [chunk] + later) == Taken(more.want, first.msgs + more.msgs)
  {
    assert ([chunk] + later)[0] == chunk && ([chunk] + later)[1..] == later;
  }

  lemma {:induction false} ReportsOfJoin(was: seq<Report>, c: Conn, i: int, a: seq<Bytes>, b: seq<Bytes>)
    ensures (was + Reports(c, i, a)) + Reports(c, i, b) == was + Reports(c, i, a + b)
  {
    assert Reports(c, i, a) + Reports(c, i, b) == Reports(c, i, a + b);
  }

  lemma {:induction false} ReportsJoin(g: State, g1: State, r: State, i: nat, c: Conn, steps: seq<Step>)
    requires steps != [] && LiveAt(g, i) && LiveAt(g1, i) && LiveAt(r, i)
    requires var want := g.slots[i].dec.msgLen;
             if OwnChunk(steps[0], c.fd) then
               && g1.slots[i].dec.msgLen == Take(want, steps[0].chunk).want
               && Trace(g1.hist.log, c.session)
                  == Trace(g.hist.log, c.session) + Reports(c, i, Take(want, steps[0].chunk).msgs)
             else g1.slots[i].dec == g.slots[i].dec && Silent(g, g1, c.session)
    requires var more := TakeAll(g1.slots[i].dec.msgLen, ChunksOf(steps[1..], c.fd));
             && r.slots[i].dec.msgLen == more.want
             && Trace(r.hist.log, c.session) == Trace(g1.hist.log, c.session) + Reports(c, i, more.msgs)
    ensures var all := TakeAll(g.slots[i].dec.msgLen, ChunksOf(steps, c.fd));
            && r.slots[i].dec.msgLen == all.want
            && Trace(r.hist.log, c.session) == Trace(g.hist.log, c.session) + Reports(c, i, all.msgs)
  {
    var later := ChunksOf(steps[1..], c.fd);
    if OwnChunk(steps[0], c.fd) {
      var first := Take(g.slots[i].dec.msgLen, steps[0].chunk);
      TakeAllFirst(g.slots[i].dec.msgLen, steps[0].chunk, later);
      ReportsOfJoin(Trace(g.hist.log, c.session), c, i, first.msgs, TakeAll(first.want, later).msgs);
    } else {
      assert [] + later == later;
    }
  }

  /**
    For every run in which an authorised client's session goes on to the end, mixed with any other
    steps: the client's payloads, framed and cut into chunks in any way, are reported exactly and
    in order if and only if none is empty and every cut falls at the start of a frame or just
    behind a length prefix.
   */
  lemma {:induction false} StreamIsReportedExactlyWhen(cfg: Config, g: State, i: nat, ps: seq<Bytes>, steps: seq<Step>)
    requires Inv(g) && LiveAt(g, i) && g.slots[i].phase.Authorized? && g.slots[i].dec.msgLen == 0
    requires CanRun(cfg, g, steps) && Serves(Run(cfg, g, steps), i, g.slots[i].session)
    requires Sendable(ps) && Flat(ChunksOf(steps, g.slots[i].fd)) == Stream(ps)
    ensures var c := g.slots[i];
            Trace(Run(cfg, g, steps).hist.log, c.session) == Trace(g.hist.log, c.session) + Reports(c, i, ps)
            <==> NonEmpty(ps) && CutsAligned(ps, 0, ChunksOf(steps, c.fd))
  {
    var c := g.slots[i];
    var chunks := ChunksOf(steps, c.fd);
    RunReports(cfg, g, i, c, steps);
    DecodesExactlyWhen(ps, chunks);
    SameReports(Trace(g.hist.log, c.session), c, i, TakeAll(0, chunks).msgs, ps);
  }

  lemma {:induction false} SameReports(tr: seq<Report>, c: Conn, i: int, a: seq<Bytes>, b: seq<Bytes>)
    ensures tr + Reports(c, i, a) == tr + Reports(c, i, b) <==> a == b
  {
    if tr + Reports(c, i, a) == tr + Reports(c, i, b) {
      assert Reports(c, i, a) == (tr + Reports(c, i, a))[|tr|..];
      assert Reports(c, i, b) == (tr + Reports(c, i, b))[|tr|..];
      assert |a| == |b|;
      forall k | 0 <= k < |a|
        ensures a[k] == b[k]
      {
        assert Reports(c, i, a)[k] == Reports(c, i, b)[k];
      }
    }
  }

  // ---------------------------------------------------------------- the channel

  /** What a report is sent with: the channels that exist, and how the report itself is serialised. */
  datatype Channel = Channel(ready: int -> bool, head: Report -> Bytes)

  /** The parts ReportEvent hands to SendToAgent. */
  function Parts(ch: Channel, rep: Report): (r: seq<Bytes>) {
    if rep.body.Data? then [ch.head(rep), rep.body.payload] else [ch.head(rep)]
  }

  /** What the agent takes out of the message, if one comes: the serialised report and the data. */
  function Arrival(ch: Channel, rep: Report): (r: Option<(Bytes, Bytes)>) {
    var posted := if ch.ready(rep.dst) then Encode(Parts(ch, rep), |ch.head(rep)|) else None;
    if posted.None? then None else Split(posted.value)
  }

  function Arrivals(ch: Channel, reps: seq<Report>): (r: seq<(Bytes, Bytes)>)
    decreases |reps|
  {
    if reps == [] then []
    else
      var a := Arrival(ch, reps[0]);
      (if a.Some? then [a.value] else []) + Arrivals(ch, reps[1..])
  }

  // The client's bytes a report is sent with.
  function DataOf(rep: Report): (r: Bytes) {
    if rep.body.Data? then rep.body.payload else []
  }

  /** The report and its data fit a message. */
  predicate Fitting(ch: Channel, rep: Report) {
    |ch.head(rep)| + |DataOf(rep)| < 65534
  }

  predicate Carried(ch: Channel, rep: Report) {
    ch.ready(rep.dst) && Fitting(ch, rep)
  }

  lemma {:induction false} ArrivesExactlyWhen(ch: Channel, rep: Report)
    ensures Arrival(ch, rep) == if Carried(ch, rep) then Some((ch.head(rep), DataOf(rep))) else None
  {
    var head, data := ch.head(rep), DataOf(rep);
    FlatOfTwo(head, data);
    if rep.body.Data? {
      ReportReachesTheAgentExactlyWhen(head, data);
    } else if Carried(ch, rep) {
      SplitUndoesEncode([head], |head|);
      assert head[..|head|] == head && head[|head|..] == [];
    }
  }

  /** The reports as the agent should get them. */
  function Whole(ch: Channel, reps: seq<Report>): (r: seq<(Bytes, Bytes)>)
    ensures |r| == |reps|
    ensures forall k :: 0 <= k < |reps| ==> r[k] == (ch.head(reps[k]), DataOf(reps[k]))
  {
    seq(|reps|, k requires 0 <= k < |reps| => (ch.head(reps[k]), DataOf(reps[k])))
  }

  /** The reports that are carried, in order. */
  function CarriedOf(ch: Channel, reps: seq<Report>): (r: seq<Report>)
    decreases |reps|
  {
    if reps == [] then []
    else (if Carried(ch, reps[0]) then [reps[0]] else []) + CarriedOf(ch, reps[1..])
  }

  ghost predicate AllCarried(ch: Channel, reps: seq<Report>) {
    forall k :: 0 <= k < |reps| ==> Carried(ch, reps[k])
  }

  /** Whatever was reported: what arrives is exactly what is carried, whole and in order. */
  lemma {:induction false} CarriedArrive(ch: Channel, reps: seq<Report>)
    ensures Arrivals(ch, reps) == Whole(ch, CarriedOf(ch, reps))
    decreases |reps|
  {
    if reps != [] {
      ArrivesExactlyWhen(ch, reps[0]);
      CarriedArrive(ch, reps[1..]);
      WholeOfJoin(ch, if Carried(ch, reps[0]) then [reps[0]] else [], CarriedOf(ch, reps[1..]));
    }
  }

  lemma {:induction false} WholeOfJoin(ch: Channel, a: seq<Report>, b: seq<Report>)
    ensures Whole(ch, a + b) == Whole(ch, a) + Whole(ch, b)
    ensures |a| == 1 ==> Whole(ch, a) == [(ch.head(a[0]), DataOf(a[0]))]
  {
  }

  lemma {:induction false} AllCarriedSplits(ch: Channel, reps: seq<Report>)
    requires reps != []
    ensures AllCarried(ch, reps) <==> Carried(ch, reps[0]) && AllCarried(ch, reps[1..])
  {
    if AllCarried(ch, reps[1..]) {
      assert forall k :: 1 <= k < |reps| ==> reps[k] == reps[1..][k - 1];
    }
  }

  function VolumeOf(reps: seq<Report>): (n: nat)
    decreases |reps|
  {
    if reps == [] then 0 else PREFIX + |DataOf(reps[0])| + VolumeOf(reps[1..])
  }

  /** All the reports are carried, or strictly less than was reported is, by number and by volume. */
  lemma {:induction false} DroppedIsLost(ch: Channel, reps: seq<Report>)
    ensures var kept := CarriedOf(ch, reps);
            if AllCarried(ch, reps) then kept == reps
            else |kept| < |reps| && VolumeOf(kept) < VolumeOf(reps)
    decreases |reps|
  {
    if reps != [] {
      var more := CarriedOf(ch, reps[1..]);
      DroppedIsLost(ch, reps[1..]);
      AllCarriedSplits(ch, reps);
      if Carried(ch, reps[0]) {
        assert ([reps[0]] + more)[1..] == more;
        assert reps == [reps[0]] + reps[1..];
      } else {
        assert [] + more == more;
        assert AllCarried(ch, reps[1..]) ==> more == reps[1..];
      }
    }
  }

  /**
    In every run, of any session's reports the agent hears exactly those whose channel exists and
    that fit a message, in order.  It hears the whole protocol if and only if every report is
    carried; for a session that was opened, if and only if the one channel its area is mapped to
    exists and every report fits.
   */
  lemma {:induction false} AgentHearsExactlyWhen(
    cfg: Config, max: nat, ms: int, steps: seq<Step>, s: nat, ch: Channel)
    requires CanRun(cfg, Initial(max, ms), steps)
    requires s < Run(cfg, Initial(max, ms), steps).hist.sessions
    ensures var tr := Trace(Run(cfg, Initial(max, ms), steps).hist.log, s);
            && Arrivals(ch, tr) == Whole(ch, CarriedOf(ch, tr))
            && (Arrivals(ch, tr) == Whole(ch, tr) <==> AllCarried(ch, tr))
            && (tr != [] && tr[0].body.Opened? ==>
                  && tr[0].area in cfg.areas
                  && (Arrivals(ch, tr) == Whole(ch, tr)
                      <==> ch.ready(cfg.areas[tr[0].area]) && forall k :: 0 <= k < |tr| ==> Fitting(ch, tr[k])))
  {
    var g := Run(cfg, Initial(max, ms), steps);
    var tr := Trace(g.hist.log, s);
    EverySessionKeepsTheProtocol(cfg, max, ms, steps, s);
    CarriedArrive(ch, tr);
    DroppedIsLost(ch, tr);
    if tr != [] && tr[0].body.Opened? {
      assert Routed(cfg, tr);
      RoutedCarried(cfg, ch, tr);
    }
  }

  lemma {:induction false} RoutedCarried(cfg: Config, ch: Channel, tr: seq<Report>)
    requires Routed(cfg, tr) && tr != []
    ensures AllCarried(ch, tr)
            <==> ch.ready(cfg.areas[tr[0].area]) && forall k :: 0 <= k < |tr| ==> Fitting(ch, tr[k])
  {
    assert forall k :: 0 <= k < |tr| ==> tr[k].dst == cfg.areas[tr[0].area];
    assert AllCarried(ch, tr) ==> Carried(ch, tr[0]);
  }

  lemma {:induction false} VolumeOfReports(c: Conn, i: int, msgs: seq<Bytes>)
    ensures VolumeOf(Reports(c, i, msgs)) == Volume(msgs)
    decreases |msgs|
  {
    if msgs != [] {
      assert Reports(c, i, msgs)[1..] == Reports(c, i, msgs[1..]);
      VolumeOfReports(c, i, msgs[1..]);
    }
  }

  lemma {:induction false} SameVolume(ch: Channel, a: seq<Report>, b: seq<Report>)
    requires Whole(ch, a) == Whole(ch, b)
    ensures |a| == |b| && VolumeOf(a) == VolumeOf(b) && forall k :: 0 <= k < |a| ==> DataOf(a[k]) == DataOf(b[k])
    decreases |a|
  {
    assert |Whole(ch, a)| == |Whole(ch, b)|;
    assert forall k :: 0 <= k < |a| ==> Whole(ch, a)[k].1 == Whole(ch, b)[k].1;
    if a != [] {
      assert Whole(ch, a[1..]) == Whole(ch, a)[1..] == Whole(ch, b)[1..] == Whole(ch, b[1..]);
      SameVolume(ch, a[1..], b[1..]);
    }
  }

  lemma {:induction false} ArrivesAsSentExactlyWhen(ch: Channel, c: Conn, i: int, ps: seq<Bytes>, chunks: seq<Bytes>)
    requires Sendable(ps) && Flat(chunks) == Stream(ps)
    ensures Arrivals(ch, Reports(c, i, TakeAll(0, chunks).msgs)) == Whole(ch, Reports(c, i, ps))
            <==> NonEmpty(ps) && CutsAligned(ps, 0, chunks) && AllCarried(ch, Reports(c, i, ps))
  {
    var msgs := TakeAll(0, chunks).msgs;
    DecodesExactlyWhen(ps, chunks);
    CarriedArrive(ch, Reports(c, i, msgs));
    DroppedIsLost(ch, Reports(c, i, msgs));
    if Arrivals(ch, Reports(c, i, msgs)) == Whole(ch, Reports(c, i, ps)) { AllArrived(ch, c, i, ps, chunks); }
  }

  lemma {:induction false} AllArrived(ch: Channel, c: Conn, i: int, ps: seq<Bytes>, chunks: seq<Bytes>)
    requires Sendable(ps) && Flat(chunks) == Stream(ps)
    requires Whole(ch, CarriedOf(ch, Reports(c, i, TakeAll(0, chunks).msgs))) == Whole(ch, Reports(c, i, ps))
    ensures TakeAll(0, chunks).msgs == ps && AllCarried(ch, Reports(c, i, ps))
  {
    var msgs := TakeAll(0, chunks).msgs;
    var reps := Reports(c, i, msgs);
    SameVolume(ch, CarriedOf(ch, reps), Reports(c, i, ps));
    DroppedIsLost(ch, reps);
    TakeAllLosesOnly(0, chunks);
    VolumeOfStream(ps);
    VolumeOfReports(c, i, msgs);
    VolumeOfReports(c, i, ps);
    forall k | 0 <= k < |ps| && |msgs| == |ps|
      ensures msgs[k] == ps[k]
    {
      assert DataOf(reps[k]) == DataOf(Reports(c, i, ps)[k]);
    }
  }

  /**
    End to end, for every run in which an authorised client's session goes on to the end, mixed
    with any other steps: the client's payloads, framed and cut into chunks in any way, arrive at
    the agent as exactly these payloads, in order and each with its report, if and only if none is
    empty, every cut falls at the start of a frame or just behind a length prefix, the agent's
    channel exists, and every payload together with its serialised report is below 65534 bytes.
   */
  lemma {:induction false} StreamReachesTheAgentExactlyWhen(
    cfg: Config, ch: Channel, g: State, i: nat, ps: seq<Bytes>, steps: seq<Step>)
    requires Inv(g) && LiveAt(g, i) && g.slots[i].phase.Authorized? && g.slots[i].dec.msgLen == 0
    requires CanRun(cfg, g, steps) && Serves(Run(cfg, g, steps), i, g.slots[i].session)
    requires Sendable(ps) && Flat(ChunksOf(steps, g.slots[i].fd)) == Stream(ps)
    ensures var c := g.slots[i];
            var before, after := Trace(g.hist.log, c.session), Trace(Run(cfg, g, steps).hist.log, c.session);
            && before <= after
            && (Arrivals(ch, after[|before|..]) == Whole(ch, Reports(c, i, ps))
                <==> && NonEmpty(ps) && CutsAligned(ps, 0, ChunksOf(steps, c.fd))
                     && AllCarried(ch, Reports(c, i, ps)))
  {
    var c := g.slots[i];
    var chunks := ChunksOf(steps, c.fd);
    RunReports(cfg, g, i, c, steps);
    var was := Trace(g.hist.log, c.session);
    var msgs := TakeAll(0, chunks).msgs;
    assert (was + Reports(c, i, msgs))[|was|..] == Reports(c, i, msgs);
    ArrivesAsSentExactlyWhen(ch, c, i, ps, chunks);
  }

  /** A largest frame is accepted from the client and reported, and never arrives. */
  lemma {:induction false} LargestFrameNeverArrives(ch: Channel, c: Conn, i: int, p: Bytes)
    requires |p| == 65535
    ensures TakeAll(0, [Frame(p)]).msgs == [p] && Arrivals(ch, Reports(c, i, [p])) == []
  {
    var ps, chunks := [p], [Frame(p)];
    FlatOfTwo(Frame(p), []);
    assert [p][1..] == [] && [Frame(p)][1..] == [];
    assert Stream([p]) == Frame(p) + [] == Frame(p);
    assert Aligned([], 0);
    assert Aligned([p], PREFIX + |p|);
    DecodesExactlyWhen(ps, chunks);
    var reps := Reports(c, i, [p]);
    ArrivesExactlyWhen(ch, reps[0]);
    assert reps[1..] == [];
  }

  /**
    A message that gets its connection removed ends its chunk: whatever follows it is not
    dispatched, and when something follows, the call returns 0 as if nothing had happened.
   */
  lemma {:induction false} KillingMessageEndsTheChunk(cfg: Config, g: State, i: nat, chunk: Bytes, now: int)
    requires Inv(g) && LiveAt(g, i)
    requires Feed(g.slots[i].dec, chunk).Complete?
    requires Handle(cfg, g.slots[i], Feed(g.slots[i].dec, chunk).msg, now).action.Drop?
    ensures var c := g.slots[i];
            var r := Receive(cfg, g, c.fd, chunk, now);
            && !LiveAt(r.0, i) && |r.0.hist.log| == |g.hist.log| + 1
            && r.0.hist.log[|g.hist.log|].report.body == Closed(CLOSE_EXCEPTION)
            && r.1 == if Feed(c.dec, chunk).rest == [] then 1 else 0
  {
    var c := g.slots[i];
    assert ByFd(g, c.fd) == Some(i);
    FeedFromClean(c.dec, chunk);
    var fed := Feed(c.dec, chunk);
    var g1 := Put(g, i, c.(dec := fed.d));
    PutKeeps(g, i, c.(dec := fed.d));
    var g3 := ReceiveOne(cfg, g, c.fd, i, chunk, fed, now);
    if fed.rest != [] {
      assert Receive(cfg, g3, c.fd, fed.rest, now).0 == g3 && Receive(cfg, g3, c.fd, fed.rest, now).1 == -1;
    }
  }

}
