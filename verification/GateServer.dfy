/**
  GateServerHandler as an object: its fields are updated in place by the handlers, and each
  handler is proved to make the transition of module Gate.  The timer manager is a second
  object that the handlers call.
 */
module GateServer {
  import opened Values
  import opened FrameDecoder
  import opened Ids
  import opened Timers
  import opened Gate
  import opened GateTable

  // A firing for this slot arms a new timer: it is not idle, and its last check lies a period back.
  predicate Rearms(cfg: Config, c: Conn, now: int) {
    Live(c) && c.lastCheck + cfg.idle <= now <= c.lastAct + cfg.idle
  }

  /** How many slots a firing would arm a new timer for. */
  function Rearmable(cfg: Config, slots: seq<Conn>, now: int): (n: nat)
    ensures n <= |slots|
    decreases |slots|
  {
    if slots == [] then 0
    else
      var last := |slots| - 1;
      Rearmable(cfg, slots[..last], now) + if Rearms(cfg, slots[last], now) then 1 else 0
  }

  lemma {:induction false} RearmableOfUpdate(cfg: Config, slots: seq<Conn>, i: nat, c: Conn, now: int)
    requires i < |slots|
    ensures Rearmable(cfg, slots[i := c], now)
            == Rearmable(cfg, slots, now) - (if Rearms(cfg, slots[i], now) then 1 else 0)
               + if Rearms(cfg, c, now) then 1 else 0
    decreases |slots|
  {
    var last := |slots| - 1;
    if i < last {
      RearmableOfUpdate(cfg, slots[..last], i, c, now);
      assert slots[i := c][..last] == slots[..last][i := c];
    } else {
      assert slots[i := c][..last] == slots[..last];
    }
  }

  // Each slot is armed at most once in a pass: the period is positive, or nothing is armed at all.
  predicate PassEnds(cfg: Config, slots: seq<Conn>, now: int) {
    0 < cfg.idle || Rearmable(cfg, slots, now) == 0
  }

  lemma {:induction false} RearmableHas(cfg: Config, slots: seq<Conn>, i: nat, now: int)
    requires i < |slots| && Rearms(cfg, slots[i], now)
    ensures 0 < Rearmable(cfg, slots, now)
    decreases |slots|
  {
    if i < |slots| - 1 { RearmableHas(cfg, slots[..|slots| - 1], i, now); }
  }

  /** The callback arms a timer only for a slot that it thereby makes one that needs none. */
  lemma {:induction false} CheckIdleRearms(cfg: Config, g: State, idx: int, now: int)
    requires PassEnds(cfg, g.slots, now)
    ensures var r := CheckIdle(cfg, g, idx, now);
            r.timers.nextId + Rearmable(cfg, r.slots, now) == g.timers.nextId + Rearmable(cfg, g.slots, now)
  {
    var r := CheckIdle(cfg, g, idx, now);
    if ByIdx(g, idx).Some? {
      var c := g.slots[idx];
      if Rearms(cfg, c, now) { RearmableHas(cfg, g.slots, idx, now); }
      if c.lastAct + cfg.idle < now { RemoveShape(g, idx, CLOSE_BY_DEFAULT); }
      RearmableOfUpdate(cfg, g.slots, idx, r.slots[idx], now);
      assert r.slots == g.slots[idx := r.slots[idx]];
    }
  }

  /** The walk after its callback has armed a timer, which moves the iterator if it lands before it. */
  lemma {:induction false} WalkAfterArm(w: Walk, delay: int, code: int, p: nat)
    requires OnPath(w) && p == UpperBound(w.q.entries, w.q.now + delay)
    ensures var r := Walk(Arm(w.q, delay, code, 0), if p <= w.pos then w.pos + 1 else w.pos);
            OnPath(r) && (0 < delay && WalkInv(w) ==> WalkInv(r))
  {
    var add := Add(delay, code, 0);
    RunOpAndDue(w, add);
    if 0 < delay && WalkInv(w) { RunOpKeepsWalk(w, add); }
    assert RunOp(w, add) == Walk(Arm(w.q, delay, code, 0), if p <= w.pos then w.pos + 1 else w.pos);
  }

  /** `steps` are single timer firings that lead from g to r. */
  ghost predicate FiresTo(cfg: Config, g: State, steps: seq<Step>, r: State) {
    && (forall k :: 0 <= k < |steps| ==> steps[k].SFire?)
    && CanRun(cfg, g, steps) && r == Run(cfg, g, steps) && Inv(r)
  }

  lemma {:induction false} RunThenFire(cfg: Config, g: State, steps: seq<Step>, r: State, pos: nat, now: int)
    requires FiresTo(cfg, g, steps, r) && AtDue(Walk(r.timers, pos))
    ensures FiresTo(cfg, g, steps + [SFire(pos, now)], FireAt(cfg, r, pos, now))
  {
    RunThenOne(cfg, g, steps, SFire(pos, now));
    FireKeeps(cfg, r, pos, now);
  }

  /** What the slot held before makes no difference. */
  lemma {:induction false} OccupyOverwrites(cfg: Config, g: State, i: nat, was: Conn, c: Conn, sent: bool)
    requires i < |g.slots|
    ensures Occupy(cfg, Put(g, i, was), i, c, sent) == Occupy(cfg, g, i, c, sent)
  {
    var d := if sent then c.(idx := i) else CloseConn(c);
    assert Put(Put(g, i, was), i, d) == Put(g, i, d);
  }

  class GateServerHandler {
    const cfg: Config
    const timers: TimerMgr
    var slots: seq<Conn>       // m_vecConnections
    var fds: map<int, int>     // m_mpConnections
    var alive: int             // m_iAlivedConnections
    var closing: int           // m_closing
    var sweep: nat             // m_dwLastClosingIdx
    var hist: History          // not in the source, see module Gate

    ghost function View(): State
      reads this, timers
    {
      State(slots, fds, alive, closing, sweep, timers.View(), hist)
    }

    constructor (cfg: Config, timers: TimerMgr, max: nat)
      requires timers.entries == [] && timers.events == map[] && timers.nextId == 1
      ensures View() == Initial(max, timers.now) && Inv(View()) && this.timers == timers && this.cfg == cfg
    {
      this.cfg := cfg;
      this.timers := timers;
      slots := seq(max, _ => InitialConn());
      fds := map[];
      alive, closing, sweep := 0, 0, 0;
      hist := History(multiset{}, 0, [], map[], []);
      new;
      InitialInv(max, timers.now);
    }

    method GetConnectionByIdx(idx: int) returns (r: Option<nat>)
      ensures r == ByIdx(View(), idx)
    {
      if idx <= 0 || idx >= |slots| { return None; }
      if slots[idx].phase == Invalid { return None; }
      return Some(idx);
    }

    method GetConnectionByFD(fd: int) returns (r: Option<nat>)
      ensures r == ByFd(View(), fd)
    {
      r := None;
      if fd in fds { r := GetConnectionByIdx(fds[fd]); }
    }

    method GetNextIdx() returns (r: Option<nat>)
      ensures r == NextIdx(View())
    {
      if alive >= |slots| { return None; }
      var i := 1;
      while i < |slots|
        invariant 1 <= i
        invariant FreeFrom(slots, 1) == FreeFrom(slots, i)
      {
        if slots[i].phase == Invalid { return Some(i); }
        i := i + 1;
      }
      return None;
    }

    method ReportEvent(i: nat, body: Body)
      requires i < |slots|
      modifies this
      ensures View() == Tell(old(View()), i, body)
    {
      var c := slots[i];
      if c.fd !in fds { fds := fds[c.fd := 0]; }
      var report := Report(c.dst, fds[c.fd], c.uid, c.area, body);
      hist := hist.(log := hist.log + [Logged(c.session, report)]);
    }

    method RemoveConnection(i: nat, reason: int)
      requires i < |slots|
      modifies this, timers
      ensures View() == Remove(old(View()), i, reason)
    {
      fds := fds - {slots[i].fd};
      ReportEvent(i, Closed(reason));
      timers.CancelTimer(slots[i].timerId);
      slots := slots[i := CloseConn(slots[i])];
    }

    /** AddTimer with CheckConnxFree as the callback. */
    method ArmIdleTimer(i: nat)
      requires i < |slots| && Consistent(timers.View()) && timers.nextId + 1 < ID_SPACE
      modifies this, timers
      ensures View() == ArmIdle(cfg, old(View()), i)
      ensures Consistent(timers.View())
    {
      hist := hist.(armed := hist.armed[timers.nextId := slots[i].session]);
      var id := timers.AddFresh(IdleMs(cfg), i, 0);
      slots := slots[i := slots[i].(timerId := id)];
    }

    /**
      `created` and `sent` are the outcomes of the buffer allocation and of the send.  The result
      is None where the source indexes its vector with -1.
     */
    method OnNewConnection(fd: int, created: bool, sent: bool, now: int) returns (ret: Option<int>)
      requires Consistent(timers.View()) && timers.nextId + 1 < ID_SPACE
      modifies this, timers
      ensures var a := Accept(cfg, old(View()), fd, created, sent, now);
              match a
              case Undefined => ret == None && View() == Counted(old(View()), fd)
              case Refused(g) => ret == Some(-1) && View() == g
              case Admitted(g) => ret == Some(0) && View() == g
    {
      alive := alive + 1;
      hist := hist.(open := hist.open + multiset{fd});
      assert View() == Counted(old(View()), fd);
      var idx := GetNextIdx();
      if idx.None? { return None; }
      var i := idx.value;
      if slots[i].dec.buf == [] {
        if !created { return Some(-1); }
        slots := slots[i := slots[i].(dec := slots[i].dec.(buf := seq(RECV_BUFFER, _ => 0)))];
      }
      if closing != 0 { return Some(-1); }
      var c := FreshConn(slots[i], fd, hist.sessions, slots[i].dec.buf, now);
      assert View() == Put(Counted(old(View()), fd), i, slots[i]);
      OccupyOverwrites(cfg, Counted(old(View()), fd), i, slots[i], c, sent);
      OccupySlot(i, c, sent);
      ret := Some(if sent then 0 else -1);
    }

    method OccupySlot(i: nat, c: Conn, sent: bool)
      requires i < |slots| && Consistent(timers.View()) && timers.nextId + 1 < ID_SPACE
      modifies this, timers
      ensures View() == Occupy(cfg, old(View()), i, c, sent).g
    {
      if !sent {
        slots := slots[i := CloseConn(c)];
      } else {
        slots := slots[i := c.(idx := i)];
        AdmitConnection(i);
      }
    }

    method AdmitConnection(i: nat)
      requires i < |slots| && Consistent(timers.View()) && timers.nextId + 1 < ID_SPACE
      modifies this, timers
      ensures View() == Admit(cfg, old(View()), i)
    {
      SendDown(i, NeedAuth);
      fds := fds[slots[i].fd := i];
      hist := hist.(sessions := hist.sessions + 1);
      if cfg.idle != 0 { ArmIdleTimer(i); }
    }

    method SendDown(i: nat, m: Down)
      requires i < |slots|
      modifies this`hist
      ensures View() == Send(old(View()), i, [m])
    {
      hist := hist.(down := hist.down + [Sent(slots[i].session, m)]);
      assert Tagged(slots[i].session, [m]) == [Sent(slots[i].session, m)];
    }

    method OnClientMessage(i: nat, msg: Bytes, now: int) returns (ret: int)
      requires i < |slots|
      modifies this, timers
      ensures View() == Message(cfg, old(View()), i, msg, now)
      ensures ret == Handle(cfg, old(slots)[i], msg, now).ret
    {
      assert Send(View(), i, []) == View() by { assert hist.down + [] == hist.down; }
      slots := slots[i := slots[i].(lastAct := now)];
      ret := 0;
      match slots[i].phase {
        case Connected =>
          var auth := cfg.parse(msg);
          if auth.None? { return -1; }
          if auth.value.area !in cfg.areas {
            RemoveConnection(i, CLOSE_EXCEPTION);
            return -1;
          }
          var area := auth.value.area;
          slots := slots[i := slots[i].(area := area, dst := cfg.areas[area], uid := auth.value.uid)];
          if cfg.needAuth {
            slots := slots[i := slots[i].(phase := Authing)];
          } else {
            SendDown(i, AuthRsp(0));
            slots := slots[i := slots[i].(phase := Authorized)];
            ReportEvent(i, Opened);
          }
        case Authing =>
        case Authorized =>
          ReportEvent(i, Data(msg));
          if cfg.testMode { SendDown(i, Payload(seq(1024, _ => 0))); }
        case Invalid =>
          RemoveConnection(i, CLOSE_EXCEPTION);
          ret := -1;
      }
    }

    method OnClientDataRecv(fd: int, chunk: Bytes, now: int) returns (ret: int)
      requires DecodersOk(View())
      modifies this, timers
      ensures View() == Receive(cfg, old(View()), fd, chunk, now).0
      ensures ret == Receive(cfg, old(View()), fd, chunk, now).1
      decreases |chunk|
    {
      var at := GetConnectionByFD(fd);
      if at.None? { return -1; }
      var i := at.value;
      FeedFromClean(slots[i].dec, chunk);
      var fed := Feed(slots[i].dec, chunk);
      slots := slots[i := slots[i].(dec := fed.d)];
      if fed.Waiting? { return 0; }
      ghost var g2 := ReceiveOne(cfg, old(View()), fd, i, chunk, fed, now);
      var bad := OnClientMessage(i, fed.msg, now);
      assert View() == g2;
      ret := if bad != 0 then 1 else 0;
      if fed.rest != [] {
        var more := OnClientDataRecv(fd, fed.rest, now);
        ret := ret + more;
      }
    }

    method OnConnectionClosed(fd: int) returns (ret: int)
      modifies this, timers
      ensures View() == PeerClose(old(View()), fd)
      ensures ret == if ByFd(old(View()), fd).Some? then 0 else -1
    {
      alive := alive - 1;
      hist := hist.(open := hist.open - multiset{fd});
      var at := GetConnectionByFD(fd);
      if at.None? { return -1; }
      RemoveConnection(at.value, CLOSE_BY_CLIENT);
      ret := 0;
    }

    /** Also what GateAgentChannelMsgHandler does on EVENT_CLOSE. */
    method CloseSlot(idx: int, reason: int)
      modifies this, timers
      ensures View() == AgentClose(old(View()), idx, reason)
    {
      var at := GetConnectionByIdx(idx);
      if at.Some? { RemoveConnection(at.value, reason); }
    }

    /** GateAgentChannelMsgHandler on EVENT_DATA. */
    method SendToSlot(idx: int, payload: Bytes, now: int)
      modifies this
      ensures View() == AgentData(old(View()), idx, payload, now)
    {
      var at := GetConnectionByIdx(idx);
      if at.None? { return; }
      SendDown(at.value, Payload(payload));
      slots := slots[at.value := slots[at.value].(lastAct := now)];
    }

    method OnClosing(reason: int, n: int) returns (ret: int)
      modifies this, timers
      ensures View() == Close(old(View()), reason, n).0
      ensures ret == if Close(old(View()), reason, n).1 then 1 else 0
    {
      if closing == 0 { closing := reason; }
      ghost var g := View();
      var i := 0;
      while i < n && sweep < |slots|
        invariant 0 <= i
        invariant Sweep(g, reason, n) == Sweep(View(), reason, n - i)
      {
        CloseSlot(sweep, reason);
        sweep := sweep + 1;
        i := i + 1;
      }
      ret := if sweep < |slots| then 0 else 1;
    }

    method CheckConnxFree(idx: int, now: int) returns (armed: bool)
      requires Consistent(timers.View()) && timers.nextId + 1 < ID_SPACE
      modifies this, timers
      ensures View() == CheckIdle(cfg, old(View()), idx, now)
      ensures Consistent(timers.View())
      ensures armed ==> timers.View() == Arm(old(timers.View()), IdleMs(cfg), idx, 0)
      ensures !armed ==> timers.entries == old(timers.entries) && timers.nextId == old(timers.nextId)
      ensures timers.now == old(timers.now)
    {
      armed := false;
      var at := GetConnectionByIdx(idx);
      if at.Some? {
        var i := at.value;
        if slots[i].lastAct + cfg.idle < now {
          RemoveConnection(i, CLOSE_BY_DEFAULT);
        } else if slots[i].lastCheck + cfg.idle <= now {
          slots := slots[i := slots[i].(lastCheck := now)];
          ArmIdleTimer(i);
          armed := true;
        }
      }
    }

    /**
      TimerMgr::Expired with the gate's callback: a run of single firings, which ends, and leaves
      nothing due if the idle period is positive in milliseconds.  A negative period would arm the
      same slot again and again, so it must arm none; the id space must hold one new timer for each
      slot.
     */
    method Expired(now: int) returns (ghost steps: seq<Step>)
      requires Inv(View()) && (timers.entries != [] ==> PassEnds(cfg, slots, now))
      requires timers.nextId + |slots| + 1 < ID_SPACE
      modifies this, timers
      ensures FiresTo(cfg, old(View()), steps, View()) && timers.now == old(timers.now)
      ensures 0 < IdleMs(cfg) ==> forall k :: 0 <= k < |timers.entries| ==> timers.now < timers.entries[k].at
    {
      var it: nat := 0;
      steps := [];
      while it < |timers.entries| && timers.entries[it].at <= timers.now
        invariant FiresTo(cfg, old(View()), steps, View()) && timers.now == old(timers.now)
        invariant OnPath(Walk(timers.View(), it)) && (timers.entries != [] ==> PassEnds(cfg, slots, now))
        invariant 0 < IdleMs(cfg) ==> WalkInv(Walk(timers.View(), it))
        invariant timers.nextId + Rearmable(cfg, slots, now) <= old(timers.nextId + |slots|)
        decreases Rearmable(cfg, slots, now), |timers.entries| - it
      {
        RunThenFire(cfg, old(View()), steps, View(), it, now);
        steps := steps + [SFire(it, now)];
        it := FireHead(it, now);
      }
      if 0 < IdleMs(cfg) { NothingDue(Walk(timers.View(), it)); }
    }

    /** One turn of the loop; the result is the iterator after the callback. */
    method FireHead(it: nat, now: int) returns (it': nat)
      requires OnPath(Walk(timers.View(), it)) && AtDue(Walk(timers.View(), it)) && PassEnds(cfg, slots, now)
      requires timers.nextId + 1 < ID_SPACE
      modifies this, timers
      ensures View() == FireAt(cfg, old(View()), it, now) && timers.now == old(timers.now)
      ensures OnPath(Walk(timers.View(), it'))
      ensures 0 < IdleMs(cfg) && old(WalkInv(Walk(timers.View(), it))) ==> WalkInv(Walk(timers.View(), it'))
      ensures timers.nextId + Rearmable(cfg, slots, now) == old(timers.nextId + Rearmable(cfg, slots, now))
      ensures old(timers.nextId) < timers.nextId || |timers.entries| - it' < old(|timers.entries| - it)
      ensures old(timers.nextId) <= timers.nextId
    {
      ghost var w := Walk(timers.View(), it);
      PopAndDue(w);
      if 0 < IdleMs(cfg) && WalkInv(w) { PopKeepsWalkInv(w); }
      var f := timers.PopHead(it);
      it' := it;
      if f.Some? { it' := RunIdleCheck(it, f.value.event.code, now); }
    }

    method RunIdleCheck(it: nat, code: int, now: int) returns (it': nat)
      requires OnPath(Walk(timers.View(), it)) && PassEnds(cfg, slots, now)
      requires timers.nextId + 1 < ID_SPACE
      modifies this, timers
      ensures View() == CheckIdle(cfg, old(View()), code, now) && timers.now == old(timers.now)
      ensures OnPath(Walk(timers.View(), it'))
      ensures 0 < IdleMs(cfg) && old(WalkInv(Walk(timers.View(), it))) ==> WalkInv(Walk(timers.View(), it'))
      ensures timers.nextId + Rearmable(cfg, slots, now) == old(timers.nextId + Rearmable(cfg, slots, now))
      ensures old(timers.nextId) < timers.nextId || |timers.entries| - it' == old(|timers.entries| - it)
      ensures old(timers.nextId) <= timers.nextId
    {
      var p := UpperBound(timers.entries, timers.now + IdleMs(cfg));
      WalkAfterArm(Walk(timers.View(), it), IdleMs(cfg), code, p);
      CheckIdleRearms(cfg, View(), code, now);
      var armed := CheckConnxFree(code, now);
      it' := if armed && p <= it then it + 1 else it;
    }
  }
}
