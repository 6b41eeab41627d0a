/**
  What the gate tells the agent about each session, over whole runs.
 */
module GateSessions {
  import opened Values
  import opened FrameDecoder
  import opened Timers
  import opened Gate
  import opened GateTable

  /** The reports about session `s`, oldest first. */
  function Trace(log: seq<Logged>, s: nat): (r: seq<Report>)
    decreases |log|
  {
    if log == [] then []
    else
      var last := log[|log| - 1];
      Trace(log[..|log| - 1], s) + if last.session == s then [last.report] else []
  }

  /** CONNECTED DATA*, all with the same slot index. */
  ghost predicate Opening(tr: seq<Report>, idx: int) {
    && tr != [] && tr[0].body.Opened?
    && (forall k :: 0 < k < |tr| ==> tr[k].body.Data?)
    && (forall k :: 0 <= k < |tr| ==> tr[k].idx == idx)
  }

  // The report names this user and area and goes to this channel.
  predicate About(r: Report, dst: int, uid: int, area: int) {
    r.dst == dst && r.uid == uid && r.area == area
  }

  /** All reports are about one user of one area, and go to the channel the area is mapped to. */
  ghost predicate Routed(cfg: Config, tr: seq<Report>) {
    && (forall k :: 0 <= k < |tr| ==> About(tr[k], tr[0].dst, tr[0].uid, tr[0].area))
    && (tr != [] ==> tr[0].area in cfg.areas && tr[0].dst == cfg.areas[tr[0].area])
  }

  /** (CONNECTED DATA*)? CLOSE, the CLOSE carrying index 0; an opened session's reports are routed. */
  ghost predicate Ended(cfg: Config, tr: seq<Report>) {
    && tr != []
    && var n := |tr| - 1;
       && tr[n].body.Closed? && tr[n].idx == 0
       && (n == 0 || (!cfg.needAuth && Routed(cfg, tr) && exists idx :: 0 < idx && Opening(tr[..n], idx)))
  }

  /** What has been reported of a session that slot `i` serves, by the slot's state. */
  ghost predicate Fits(cfg: Config, c: Conn, i: int, tr: seq<Report>) {
    if c.phase.Authorized? then
      !cfg.needAuth && Opening(tr, i) && Routed(cfg, tr) && About(tr[0], c.dst, c.uid, c.area)
    else tr == []
  }

  predicate Serves(g: State, i: int, s: nat) {
    LiveAt(g, i) && g.slots[i].session == s
  }

  ghost predicate LiveSession(g: State, s: nat) {
    exists i :: Serves(g, i, s)
  }

  ghost predicate TracesOk(cfg: Config, g: State) {
    && (forall i :: LiveAt(g, i) ==> Fits(cfg, g.slots[i], i, Trace(g.hist.log, g.slots[i].session)))
    && (forall s: nat :: g.hist.sessions <= s ==> Trace(g.hist.log, s) == [])
    && (forall s: nat :: s < g.hist.sessions && !LiveSession(g, s) ==> Ended(cfg, Trace(g.hist.log, s)))
  }

  // ---------------------------------------------------------------- transitions that report nothing

  ghost predicate Quiet(cfg: Config, g: State, r: State) {
    && r.hist.log == g.hist.log && r.hist.sessions == g.hist.sessions
    && (forall k :: LiveAt(r, k) <==> LiveAt(g, k))
    && (forall k :: LiveAt(g, k) ==> SameStanding(g.slots[k], r.slots[k]))
  }

  predicate SameStanding(c: Conn, d: Conn) {
    && d.session == c.session && (d.phase.Authorized? <==> c.phase.Authorized?)
    && (c.phase.Authorized? ==> d.dst == c.dst && d.uid == c.uid && d.area == c.area)
  }

  lemma {:induction false} QuietKeeps(cfg: Config, g: State, r: State)
    requires TracesOk(cfg, g) && Quiet(cfg, g, r)
    ensures TracesOk(cfg, r)
  {
    forall i | LiveAt(r, i)
      ensures Fits(cfg, r.slots[i], i, Trace(r.hist.log, r.slots[i].session))
    {
      assert Fits(cfg, g.slots[i], i, Trace(g.hist.log, g.slots[i].session));
    }
    forall s: nat | LiveSession(g, s)
      ensures LiveSession(r, s)
    {
      var i :| Serves(g, i, s);
      assert Serves(r, i, s);
    }
  }

  // ---------------------------------------------------------------- reporting

  /** While slot `i` is live, a report about it carries its index. */
  lemma {:induction false} TellLogs(g: State, i: nat, body: Body)
    requires TableOk(g) && LiveAt(g, i)
    ensures var c := g.slots[i];
            Tell(g, i, body).hist.log == g.hist.log + [Logged(c.session, Report(c.dst, i, c.uid, c.area, body))]
  {
  }

  /** The CLOSE report carries index 0: the socket has been erased when its index is looked up. */
  lemma {:induction false} RemoveLogs(g: State, i: nat, reason: int)
    requires i < |g.slots|
    ensures var c := g.slots[i];
            Remove(g, i, reason).hist.log
            == g.hist.log + [Logged(c.session, Report(c.dst, 0, c.uid, c.area, Closed(reason)))]
  {
  }

  // A report about slot i's session, and no other change that traces look at but slot i's state.
  ghost predicate Spoke(g: State, r: State, i: int, rep: Report) {
    && LiveAt(g, i) && r.hist.sessions == g.hist.sessions && |r.slots| == |g.slots|
    && r.hist.log == g.hist.log + [Logged(g.slots[i].session, rep)]
    && (forall k :: k != i ==> (LiveAt(r, k) <==> LiveAt(g, k)))
    && (forall k :: LiveAt(g, k) && k != i ==> SameStanding(g.slots[k], r.slots[k]))
  }

  lemma {:induction false} SpokeKeeps(cfg: Config, g: State, r: State, i: int, rep: Report)
    requires TracesOk(cfg, g) && SessionsOk(g) && Spoke(g, r, i, rep)
    requires var tr := Trace(g.hist.log, g.slots[i].session) + [rep];
             if LiveAt(r, i) then r.slots[i].session == g.slots[i].session && Fits(cfg, r.slots[i], i, tr)
             else Ended(cfg, tr)
    ensures TracesOk(cfg, r)
  {
    var s0 := g.slots[i].session;
    forall s: nat
      ensures Trace(r.hist.log, s) == if s == s0 then Trace(g.hist.log, s) + [rep] else Trace(g.hist.log, s)
    {
    }
    forall k | LiveAt(r, k)
      ensures Fits(cfg, r.slots[k], k, Trace(r.hist.log, r.slots[k].session))
    {
      if k != i { assert LiveAt(g, k) && Fits(cfg, g.slots[k], k, Trace(g.hist.log, g.slots[k].session)); }
    }
    forall s: nat | LiveSession(g, s) && (s != s0 || LiveAt(r, i))
      ensures LiveSession(r, s)
    {
      var k :| Serves(g, k, s);
      assert Serves(r, k, s);
    }
    assert Serves(g, i, s0);
  }

  lemma {:induction false} RemoveKeepsTraces(cfg: Config, g: State, i: nat, reason: int)
    requires Inv(g) && TracesOk(cfg, g) && LiveAt(g, i)
    ensures TracesOk(cfg, Remove(g, i, reason))
  {
    var c := g.slots[i];
    var r := Remove(g, i, reason);
    var rep := Report(c.dst, 0, c.uid, c.area, Closed(reason));
    RemoveShape(g, i, reason);
    RemoveLogs(g, i, reason);
    var tr := Trace(g.hist.log, c.session);
    assert Fits(cfg, c, i, tr);
    assert (tr + [rep])[..|tr|] == tr;
    assert Ended(cfg, tr + [rep]);
    SpokeKeeps(cfg, g, r, i, rep);
  }

  // ---------------------------------------------------------------- receiving

  lemma {:induction false} SayKeepsTraces(cfg: Config, g: State, i: nat, h: Handled)
    requires Inv(g) && TracesOk(cfg, g) && LiveAt(g, i) && h.action.Say?
    requires SameKey(g.slots[i], h.c) && h.c.phase.Authorized? && DecoderOk(h.c) && !cfg.needAuth
    requires if h.action.body.Opened? then
               !g.slots[i].phase.Authorized? && h.c.area in cfg.areas && h.c.dst == cfg.areas[h.c.area]
             else h.action.body.Data? && SameStanding(g.slots[i], h.c) && g.slots[i].phase.Authorized?
    ensures TracesOk(cfg, Tell(Put(g, i, h.c), i, h.action.body))
  {
    var c := g.slots[i];
    var g1 := Put(g, i, h.c);
    PutKeeps(g, i, h.c);
    TellLogs(g1, i, h.action.body);
    assert Fits(cfg, c, i, Trace(g.hist.log, c.session));
    SpokeKeeps(cfg, g, Tell(g1, i, h.action.body), i, Report(h.c.dst, i, h.c.uid, h.c.area, h.action.body));
  }

  lemma {:induction false} MessageKeepsTraces(cfg: Config, g: State, i: nat, msg: Bytes, now: int)
    requires Inv(g) && TracesOk(cfg, g) && LiveAt(g, i)
    ensures TracesOk(cfg, Message(cfg, g, i, msg, now))
  {
    var h := Handle(cfg, g.slots[i], msg, now);
    var g1 := Send(g, i, h.sends);
    SendKeepsTraces(cfg, g, i, h.sends);
    if h.action.Say? {
      SayKeepsTraces(cfg, g1, i, h);
    } else {
      UpdateKeepsTraces(cfg, g1, i, h.c);
      if h.action.Drop? { RemoveKeepsTraces(cfg, Put(g1, i, h.c), i, CLOSE_EXCEPTION); }
    }
  }

  lemma {:induction false} SendKeepsTraces(cfg: Config, g: State, i: nat, ms: seq<Down>)
    requires Inv(g) && TracesOk(cfg, g) && i < |g.slots|
    ensures var r := Send(g, i, ms); Inv(r) && TracesOk(cfg, r) && r.slots == g.slots
  {
    DownKeeps(g, Send(g, i, ms).hist.down);
    QuietKeeps(cfg, g, Send(g, i, ms));
  }

  lemma {:induction false} UpdateKeepsTraces(cfg: Config, g: State, i: nat, c: Conn)
    requires Inv(g) && TracesOk(cfg, g) && LiveAt(g, i) && Live(c) && DecoderOk(c)
    requires SameKey(g.slots[i], c) && SameStanding(g.slots[i], c)
    ensures Inv(Put(g, i, c)) && TracesOk(cfg, Put(g, i, c)) && LiveAt(Put(g, i, c), i)
  {
    PutKeeps(g, i, c);
    QuietKeeps(cfg, g, Put(g, i, c));
  }

  lemma {:induction false} ReceiveKeepsTraces(cfg: Config, g: State, fd: int, chunk: Bytes, now: int)
    requires Inv(g) && TracesOk(cfg, g)
    ensures TracesOk(cfg, Receive(cfg, g, fd, chunk, now).0)
    decreases |chunk|
  {
    var at := ByFd(g, fd);
    if at.Some? {
      var i := at.value;
      FeedFromClean(g.slots[i].dec, chunk);
      var fed := Feed(g.slots[i].dec, chunk);
      UpdateKeepsTraces(cfg, g, i, g.slots[i].(dec := fed.d));
      if fed.Complete? {
        var g2 := ReceiveOne(cfg, g, fd, i, chunk, fed, now);
        MessageKeeps(cfg, Put(g, i, g.slots[i].(dec := fed.d)), i, fed.msg, now);
        MessageKeepsTraces(cfg, Put(g, i, g.slots[i].(dec := fed.d)), i, fed.msg, now);
        if fed.rest != [] { ReceiveKeepsTraces(cfg, g2, fd, fed.rest, now); }
      }
    }
  }

  // ---------------------------------------------------------------- the other steps

  lemma {:induction false} AgentCloseKeepsTraces(cfg: Config, g: State, idx: int, reason: int)
    requires Inv(g) && TracesOk(cfg, g)
    ensures TracesOk(cfg, AgentClose(g, idx, reason))
  {
    if ByIdx(g, idx).Some? { RemoveKeepsTraces(cfg, g, idx, reason); }
  }

  lemma {:induction false} PeerCloseKeepsTraces(cfg: Config, g: State, fd: int)
    requires Inv(g) && TracesOk(cfg, g)
    ensures TracesOk(cfg, PeerClose(g, fd))
  {
    var at := ByFd(g, fd);
    var g1 := Uncounted(g, fd);
    if at.None? {
      QuietKeeps(cfg, g, g1);
    } else {
      RemoveKeepsTraces(cfg, g, at.value, CLOSE_BY_CLIENT);
      QuietKeeps(cfg, Remove(g, at.value, CLOSE_BY_CLIENT), PeerClose(g, fd));
    }
  }

  lemma {:induction false} FireKeepsTraces(cfg: Config, g: State, pos: nat, now: int)
    requires Inv(g) && TracesOk(cfg, g) && AtDue(Walk(g.timers, pos))
    ensures TracesOk(cfg, FireAt(cfg, g, pos, now))
  {
    PopKeeps(g, pos);
    var g1 := g.(timers := Pop(Walk(g.timers, pos)).q);
    QuietKeeps(cfg, g, g1);
    var id := g.timers.entries[pos].id;
    if id in g.timers.events { CheckIdleKeepsTraces(cfg, g1, g.timers.events[id].code, now); }
  }

  lemma {:induction false} CheckIdleKeepsTraces(cfg: Config, g: State, idx: int, now: int)
    requires Inv(g) && TracesOk(cfg, g)
    ensures TracesOk(cfg, CheckIdle(cfg, g, idx, now))
  {
    if ByIdx(g, idx).Some? && g.slots[idx].lastAct + cfg.idle < now {
      RemoveKeepsTraces(cfg, g, idx, CLOSE_BY_DEFAULT);
    } else {
      StillIdle(cfg, g, idx, now);
    }
  }

  lemma {:induction false} StillIdle(cfg: Config, g: State, idx: int, now: int)
    requires TracesOk(cfg, g) && !(ByIdx(g, idx).Some? && g.slots[idx].lastAct + cfg.idle < now)
    ensures TracesOk(cfg, CheckIdle(cfg, g, idx, now))
  {
    QuietKeeps(cfg, g, CheckIdle(cfg, g, idx, now));
  }

  lemma {:induction false} SweepKeepsTraces(cfg: Config, g: State, reason: int, n: int)
    requires Inv(g) && TracesOk(cfg, g) && g.closing != 0
    ensures TracesOk(cfg, Sweep(g, reason, n))
    decreases n
  {
    if 0 < n && g.sweep < |g.slots| {
      AgentCloseKeepsTraces(cfg, g, g.sweep, reason);
      SweepOneKeeps(g, reason);
      QuietKeeps(cfg, AgentClose(g, g.sweep, reason), SweepOne(g, reason));
      SweepKeepsTraces(cfg, SweepOne(g, reason), reason, n - 1);
    }
  }

  lemma {:induction false} AcceptKeepsTraces(cfg: Config, g: State, fd: int, created: bool, sent: bool, now: int)
    requires Inv(g) && TracesOk(cfg, g) && !Accept(cfg, g, fd, created, sent, now).Undefined?
    ensures TracesOk(cfg, Accept(cfg, g, fd, created, sent, now).g)
  {
    var a := Accept(cfg, g, fd, created, sent, now);
    if a.Refused? {
      QuietKeeps(cfg, g, a.g);
    } else {
      AdmittedShape(cfg, g, fd, created, sent, now);
      NewSessionKeeps(cfg, g, a.g, NextIdx(Counted(g, fd)).value);
    }
  }

  // Slot i of r has come to life for a new session.
  ghost predicate Began(g: State, r: State, i: int) {
    && r.hist.log == g.hist.log && r.hist.sessions == g.hist.sessions + 1
    && (forall k :: LiveAt(r, k) <==> LiveAt(g, k) || k == i) && !LiveAt(g, i)
    && LiveAt(r, i) && r.slots[i].session == g.hist.sessions && r.slots[i].phase == Connected
    && (forall k :: LiveAt(g, k) ==> r.slots[k] == g.slots[k])
  }

  lemma {:induction false} NewSessionKeeps(cfg: Config, g: State, r: State, i: int)
    requires TracesOk(cfg, g) && Began(g, r, i)
    ensures TracesOk(cfg, r)
  {
    forall k | LiveAt(r, k) && k != i
      ensures Fits(cfg, r.slots[k], k, Trace(r.hist.log, r.slots[k].session))
    {
      assert LiveAt(g, k) && Fits(cfg, g.slots[k], k, Trace(g.hist.log, g.slots[k].session));
    }
    assert Serves(r, i, g.hist.sessions);
    forall s: nat | LiveSession(g, s)
      ensures LiveSession(r, s)
    {
      var k :| Serves(g, k, s);
      assert Serves(r, k, s);
    }
  }

  lemma {:induction false} AdmittedShape(cfg: Config, g: State, fd: int, created: bool, sent: bool, now: int)
    requires Accept(cfg, g, fd, created, sent, now).Admitted?
    ensures Began(g, Accept(cfg, g, fd, created, sent, now).g, NextIdx(Counted(g, fd)).value)
  {
  }

  lemma {:induction false} ApplyKeepsTraces(cfg: Config, g: State, s: Step)
    requires Inv(g) && TracesOk(cfg, g) && Enabled(cfg, g, s)
    ensures TracesOk(cfg, Apply(cfg, g, s))
  {
    match s
    case SAccept(fd, created, sent, now) => AcceptKeepsTraces(cfg, g, fd, created, sent, now);
    case SReceive(fd, chunk, now) => ReceiveKeepsTraces(cfg, g, fd, chunk, now);
    case SPeerClose(fd) => PeerCloseKeepsTraces(cfg, g, fd);
    case SAgentClose(idx, reason) => AgentCloseKeepsTraces(cfg, g, idx, reason);
    case SAgentData(idx, bytes, now) => AgentDataKeepsTraces(cfg, g, idx, bytes, now);
    case SFire(pos, now) => FireKeepsTraces(cfg, g, pos, now);
    case SClock(ms) => ClockKeepsTraces(cfg, g, ms);
    case SClose(reason, n) => CloseKeepsTraces(cfg, g, reason, n);
  }

  lemma {:induction false} AgentDataKeepsTraces(cfg: Config, g: State, idx: int, bytes: Bytes, now: int)
    requires TracesOk(cfg, g)
    ensures TracesOk(cfg, AgentData(g, idx, bytes, now))
  {
    QuietKeeps(cfg, g, AgentData(g, idx, bytes, now));
  }

  lemma {:induction false} ClockKeepsTraces(cfg: Config, g: State, ms: int)
    requires TracesOk(cfg, g)
    ensures TracesOk(cfg, g.(timers := g.timers.(now := ms)))
  {
    QuietKeeps(cfg, g, g.(timers := g.timers.(now := ms)));
  }

  lemma {:induction false} CloseKeepsTraces(cfg: Config, g: State, reason: int, n: int)
    requires Inv(g) && TracesOk(cfg, g) && reason != 0
    ensures TracesOk(cfg, Close(g, reason, n).0)
  {
    var g1 := if g.closing == 0 then g.(closing := reason) else g;
    AlikeKeeps(g, g1);
    QuietKeeps(cfg, g, g1);
    SweepKeepsTraces(cfg, g1, reason, n);
  }

  lemma {:induction false} RunKeepsTraces(cfg: Config, g: State, steps: seq<Step>)
    requires Inv(g) && TracesOk(cfg, g) && CanRun(cfg, g, steps)
    ensures Inv(Run(cfg, g, steps)) && TracesOk(cfg, Run(cfg, g, steps))
    decreases |steps|
  {
    if steps != [] {
      ApplyKeeps(cfg, g, steps[0]);
      ApplyKeepsTraces(cfg, g, steps[0]);
      RunKeepsTraces(cfg, Apply(cfg, g, steps[0]), steps[1..]);
    }
  }

  /**
    In every run, what has been reported of an accepted session is nothing, or CONNECTED DATA* with
    the session's slot index, or either of these and then one CLOSE, with index 0.  A session that
    no slot serves any more has had its CLOSE, and one that a slot serves has not.  The reports of
    an opened session name one user and area and go to the channel that area is mapped to.  When the
    gate requires authentication no session is opened.
   */
  lemma {:induction false} EverySessionKeepsTheProtocol(cfg: Config, max: nat, ms: int, steps: seq<Step>, s: nat)
    requires CanRun(cfg, Initial(max, ms), steps)
    requires s < Run(cfg, Initial(max, ms), steps).hist.sessions
    ensures var g := Run(cfg, Initial(max, ms), steps);
            var tr := Trace(g.hist.log, s);
            && (LiveSession(g, s) ==>
                tr == [] || (!cfg.needAuth && Routed(cfg, tr) && exists idx :: Serves(g, idx, s) && Opening(tr, idx)))
            && (!LiveSession(g, s) ==> Ended(cfg, tr))
  {
    InitialInv(max, ms);
    RunKeepsTraces(cfg, Initial(max, ms), steps);
    var g := Run(cfg, Initial(max, ms), steps);
    if LiveSession(g, s) {
      var i :| Serves(g, i, s);
      assert Fits(cfg, g.slots[i], i, Trace(g.hist.log, s));
    }
  }

  ghost predicate NoClose(tr: seq<Report>) {
    forall k :: 0 <= k < |tr| ==> !tr[k].body.Closed?
  }

  ghost predicate OneCloseAtTheEnd(tr: seq<Report>) {
    tr != [] && forall k :: 0 <= k < |tr| ==> (tr[k].body.Closed? <==> k == |tr| - 1)
  }

  lemma {:induction false} EndedClosesOnce(cfg: Config, tr: seq<Report>)
    requires Ended(cfg, tr)
    ensures OneCloseAtTheEnd(tr)
  {
    var n := |tr| - 1;
    if 0 < n {
      var idx :| 0 < idx && Opening(tr[..n], idx);
      assert forall k :: 0 <= k < n ==> tr[k] == tr[..n][k];
    }
  }

  /**
    A shutdown whose budgets reach the size of the table reports exactly one CLOSE for every
    session that was live when it began, whatever the run interleaves and however the session
    comes to its end.
   */
  lemma {:induction false} ShutdownClosesEverySessionOnce(
    cfg: Config, max: nat, ms: int, before: seq<Step>, reason: int, n: int, after: seq<Step>, s: nat)
    requires CanRun(cfg, Initial(max, ms), before)
    requires var g := Run(cfg, Initial(max, ms), before);
             && g.closing == 0 && reason != 0 && CanRun(cfg, g, [SClose(reason, n)] + after)
             && |g.slots| <= Quota([SClose(reason, n)] + after) && LiveSession(g, s)
    ensures var g := Run(cfg, Initial(max, ms), before);
            var r := Run(cfg, g, [SClose(reason, n)] + after);
            NoClose(Trace(g.hist.log, s)) && OneCloseAtTheEnd(Trace(r.hist.log, s))
  {
    InitialInv(max, ms);
    RunKeepsTraces(cfg, Initial(max, ms), before);
    var g := Run(cfg, Initial(max, ms), before);
    var i :| Serves(g, i, s);
    assert Fits(cfg, g.slots[i], i, Trace(g.hist.log, s));
    RunKeepsTraces(cfg, g, [SClose(reason, n)] + after);
    ShutdownEmptiesTheTable(cfg, g, reason, n, after);
    EndedClosesOnce(cfg, Trace(Run(cfg, g, [SClose(reason, n)] + after).hist.log, s));
  }
}
