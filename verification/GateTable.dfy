/**
  What every transition of the gate keeps: the socket map and the slot table agree, each pending
  idle timer belongs to the connection now in its slot, accepted sockets cover the live slots,
  and swept slots stay empty.
 */
module GateTable {
  import opened Values
  import opened FrameDecoder
  import opened Timers
  import opened Gate

  predicate LiveAt(g: State, i: int) {
    0 <= i < |g.slots| && Live(g.slots[i])
  }

  // The slot a socket is mapped to serves that socket.
  ghost predicate Home(g: State, fd: int)
    requires fd in g.fds
  {
    LiveAt(g, g.fds[fd]) && g.slots[g.fds[fd]].fd == fd
  }

  /** Every map entry is 0 or leads to a live slot with that socket; every live slot is reachable. */
  ghost predicate TableOk(g: State) {
    && !LiveAt(g, 0)
    && (forall fd :: fd in g.fds ==> g.fds[fd] == 0 || Home(g, fd))
    && (forall i :: LiveAt(g, i) ==> g.slots[i].idx == i && g.slots[i].fd in g.fds && g.fds[g.slots[i].fd] == i)
  }

  /** A live slot serves an accepted session, and no other slot serves it. */
  ghost predicate SessionsOk(g: State) {
    && (forall i :: LiveAt(g, i) ==> g.slots[i].session < g.hist.sessions)
    && (forall i, j :: LiveAt(g, i) && LiveAt(g, j) && i != j ==> g.slots[i].session != g.slots[j].session)
  }

  // Timer `id` was armed for session `s`.
  ghost predicate ArmedFor(g: State, id: nat, s: nat) {
    id in g.hist.armed && g.hist.armed[id] == s
  }

  // A pending timer: its slot is live, names it, and serves the session it was armed for.
  ghost predicate Owned(g: State, id: nat, slot: int) {
    LiveAt(g, slot) && g.slots[slot].timerId == id && ArmedFor(g, id, g.slots[slot].session)
  }

  ghost predicate TimersOk(g: State) {
    && Consistent(g.timers) && 0 < g.timers.nextId && 0 !in g.timers.events
    && (forall id :: id in g.timers.events ==> Owned(g, id, g.timers.events[id].code))
    && (forall id :: id in g.hist.armed ==> id < g.timers.nextId)
    && (forall i :: LiveAt(g, i) && g.slots[i].timerId != 0 ==> ArmedFor(g, g.slots[i].timerId, g.slots[i].session))
  }

  /** The counter counts the accepts not yet notified closed, which cover the live sockets. */
  ghost predicate CountOk(g: State) {
    && g.alive == |g.hist.open|
    && (forall i :: LiveAt(g, i) ==> g.slots[i].fd in g.hist.open)
  }

  ghost predicate SweepOk(g: State) {
    (g.closing == 0 ==> g.sweep == 0) && forall i :: 0 <= i < g.sweep ==> !LiveAt(g, i)
  }

  ghost predicate Inv(g: State) {
    TableOk(g) && SessionsOk(g) && TimersOk(g) && CountOk(g) && SweepOk(g) && DecodersOk(g)
  }

  lemma {:induction false} InitialInv(max: nat, ms: int)
    ensures Inv(Initial(max, ms))
  {
  }

  // ---------------------------------------------------------------- updates that keep the key fields

  predicate SameKey(c: Conn, d: Conn) {
    c.idx == d.idx && c.fd == d.fd && c.timerId == d.timerId && c.session == d.session
  }

  // The states differ only in what the invariant does not look at.
  ghost predicate Alike(g: State, r: State) {
    && |r.slots| == |g.slots| && r.fds == g.fds && r.timers == g.timers
    && r.hist.sessions == g.hist.sessions && r.hist.armed == g.hist.armed
    && (forall k :: LiveAt(r, k) <==> LiveAt(g, k))
    && (forall k :: LiveAt(g, k) ==> SameKey(g.slots[k], r.slots[k]))
  }

  lemma {:induction false} AlikeKeeps(g: State, r: State)
    requires TableOk(g) && SessionsOk(g) && TimersOk(g) && Alike(g, r)
    ensures TableOk(r) && SessionsOk(r) && TimersOk(r)
  {
    assert TableOk(r);
    assert SessionsOk(r);
    assert TimersOk(r);
  }

  lemma {:induction false} PutKeeps(g: State, i: nat, c: Conn)
    requires Inv(g) && i < |g.slots| && DecoderOk(c)
    requires Live(c) <==> LiveAt(g, i)
    requires Live(c) ==> SameKey(g.slots[i], c)
    ensures Inv(Put(g, i, c))
  {
    AlikeKeeps(g, Put(g, i, c));
  }

  lemma {:induction false} TellKeeps(g: State, i: nat, body: Body)
    requires Inv(g) && LiveAt(g, i)
    ensures Inv(Tell(g, i, body))
    ensures Tell(g, i, body) == g.(hist := Tell(g, i, body).hist)
  {
    AlikeKeeps(g, Tell(g, i, body));
  }

  lemma {:induction false} DownKeeps(g: State, down: seq<Sent>)
    requires Inv(g)
    ensures Inv(g.(hist := g.hist.(down := down)))
  {
    AlikeKeeps(g, g.(hist := g.hist.(down := down)));
  }

  // ---------------------------------------------------------------- removal

  /** The erased socket comes back as 0 through operator[]; everything else is untouched. */
  lemma {:induction false} RemoveShape(g: State, i: nat, reason: int)
    requires i < |g.slots|
    ensures var r := Remove(g, i, reason);
            && r.slots == g.slots[i := CloseConn(g.slots[i])]
            && r.fds == (g.fds - {g.slots[i].fd})[g.slots[i].fd := 0]
            && r.timers == Disarm(g.timers, g.slots[i].timerId)
            && r.hist.open == g.hist.open && r.hist.sessions == g.hist.sessions && r.hist.armed == g.hist.armed
            && r.alive == g.alive && r.closing == g.closing && r.sweep == g.sweep
            && (forall k :: LiveAt(r, k) <==> LiveAt(g, k) && k != i) && r.slots[i].idx == -1
  {
  }

  lemma {:induction false} RemoveKeepsTable(g: State, i: nat, reason: int)
    requires TableOk(g) && LiveAt(g, i)
    ensures TableOk(Remove(g, i, reason))
  {
    RemoveShape(g, i, reason);
    var r := Remove(g, i, reason);
    forall fd | fd in r.fds
      ensures r.fds[fd] == 0 || Home(r, fd)
    {
      if fd != g.slots[i].fd {
        assert fd in g.fds && r.fds[fd] == g.fds[fd];
        assert g.fds[fd] == 0 || Home(g, fd);
      }
    }
    forall k | LiveAt(r, k)
      ensures r.slots[k].idx == k && r.slots[k].fd in r.fds && r.fds[r.slots[k].fd] == k
    {
      assert LiveAt(g, k);
    }
  }

  lemma {:induction false} RemoveKeepsTimers(g: State, i: nat, reason: int)
    requires SessionsOk(g) && TimersOk(g) && LiveAt(g, i)
    ensures TimersOk(Remove(g, i, reason))
  {
    RemoveShape(g, i, reason);
    var r := Remove(g, i, reason);
    forall id | id in r.timers.events
      ensures Owned(r, id, r.timers.events[id].code)
    {
      var slot := g.timers.events[id].code;
      assert Owned(g, id, slot) && id != g.slots[i].timerId;
      assert slot != i;
    }
    assert Consistent(r.timers);
  }

  lemma {:induction false} RemoveKeepsRest(g: State, i: nat, reason: int)
    requires SessionsOk(g) && SweepOk(g) && DecodersOk(g) && LiveAt(g, i)
    ensures var r := Remove(g, i, reason); SessionsOk(r) && SweepOk(r) && DecodersOk(r)
    ensures CountOk(g) ==> CountOk(Remove(g, i, reason))
  {
    RemoveShape(g, i, reason);
  }

  lemma {:induction false} RemoveKeeps(g: State, i: nat, reason: int)
    requires Inv(g) && LiveAt(g, i)
    ensures Inv(Remove(g, i, reason))
  {
    RemoveKeepsTable(g, i, reason);
    RemoveKeepsTimers(g, i, reason);
    RemoveKeepsRest(g, i, reason);
  }

  // ---------------------------------------------------------------- arming

  lemma {:induction false} ArmIdleKeeps(cfg: Config, g: State, i: nat)
    requires Inv(g) && LiveAt(g, i)
    requires forall id :: id in g.timers.events ==> g.timers.events[id].code != i
    ensures Inv(ArmIdle(cfg, g, i))
  {
    var r := ArmIdle(cfg, g, i);
    ArmKeepsConsistent(g.timers, IdleMs(cfg), i, 0);
    assert forall k :: LiveAt(r, k) <==> LiveAt(g, k);
    assert TableOk(r);
    assert SessionsOk(r);
    forall id | id in r.timers.events
      ensures Owned(r, id, r.timers.events[id].code)
    {
      if id != g.timers.nextId { assert Owned(g, id, g.timers.events[id].code); }
    }
    forall k | LiveAt(r, k) && r.slots[k].timerId != 0
      ensures ArmedFor(r, r.slots[k].timerId, r.slots[k].session)
    {
      if k != i { assert ArmedFor(g, g.slots[k].timerId, g.slots[k].session); }
    }
    assert TimersOk(r);
  }

  // ---------------------------------------------------------------- accepting

  /** The accept as counted, whatever becomes of it. */
  function Counted(g: State, fd: int): (r: State) {
    g.(alive := g.alive + 1, hist := g.hist.(open := g.hist.open + multiset{fd}))
  }

  lemma {:induction false} CountedKeeps(g: State, fd: int)
    requires Inv(g)
    ensures Inv(Counted(g, fd))
  {
    AlikeKeeps(g, Counted(g, fd));
  }

  lemma {:induction false} IdleSlotHasNoTimer(g: State, i: nat)
    requires TimersOk(g) && !LiveAt(g, i)
    ensures forall id :: id in g.timers.events ==> g.timers.events[id].code != i
  {
    forall id | id in g.timers.events
      ensures g.timers.events[id].code != i
    {
      assert Owned(g, id, g.timers.events[id].code);
    }
  }

  /** Occupying a free slot and mapping its socket, before the timer is armed. */
  lemma {:induction false} OccupyKeeps(g: State, i: nat, c: Conn)
    requires Inv(g) && 0 < i < |g.slots| && !LiveAt(g, i) && g.closing == 0
    requires Live(c) && c.idx == i && c.timerId == 0 && c.session == g.hist.sessions && Clean(c.dec)
    requires c.fd in g.hist.open && forall k :: LiveAt(g, k) ==> g.slots[k].fd != c.fd
    ensures Inv(Entered(g, i, c))
  {
    var r := Entered(g, i, c);
    assert forall k :: LiveAt(r, k) <==> LiveAt(g, k) || k == i;
    assert TableOk(r) by {
      forall fd | fd in r.fds
        ensures r.fds[fd] == 0 || Home(r, fd)
      {
        if fd != c.fd { assert g.fds[fd] == 0 || Home(g, fd); }
      }
    }
    assert SessionsOk(r);
    assert TimersOk(r) by {
      forall id | id in r.timers.events
        ensures Owned(r, id, r.timers.events[id].code)
      {
        assert Owned(g, id, g.timers.events[id].code);
      }
    }
  }

  lemma {:induction false} AcceptKeeps(cfg: Config, g: State, fd: int, created: bool, sent: bool, now: int)
    requires Inv(g)
    requires forall i :: LiveAt(g, i) ==> g.slots[i].fd != fd
    ensures var r := Accept(cfg, g, fd, created, sent, now); !r.Undefined? ==> Inv(r.g)
  {
    var g1 := Counted(g, fd);
    CountedKeeps(g, fd);
    var next := NextIdx(g1);
    if next.Some? {
      var i := next.value;
      var c := g1.slots[i];
      var buf := if c.dec.buf == [] then seq(RECV_BUFFER, _ => 0) else c.dec.buf;
      var f := FreshConn(c, fd, g1.hist.sessions, buf, now);
      if c.dec.buf == [] && !created {
      } else if g.closing != 0 {
        PutKeeps(g1, i, c.(dec := c.dec.(buf := buf)));
      } else if !sent {
        PutKeeps(g1, i, CloseConn(f));
      } else {
        AdmitKeeps(cfg, g1, i, f.(idx := i));
      }
    }
  }

  lemma {:induction false} AdmitKeeps(cfg: Config, g: State, i: nat, c: Conn)
    requires Inv(g) && 0 < i < |g.slots| && !LiveAt(g, i) && g.closing == 0
    requires Live(c) && c.idx == i && c.timerId == 0 && c.session == g.hist.sessions && Clean(c.dec)
    requires c.fd in g.hist.open && forall k :: LiveAt(g, k) ==> g.slots[k].fd != c.fd
    ensures Inv(Admit(cfg, Put(g, i, c), i))
  {
    var g1 := Asked(g, c.session);
    DownKeeps(g, g1.hist.down);
    EnterKeeps(cfg, g1, i, c);
    AdmitIs(cfg, g, i, c);
  }

  /** The auth request is sent. */
  function Asked(g: State, session: nat): (r: State) {
    g.(hist := g.hist.(down := g.hist.down + Tagged(session, [NeedAuth])))
  }

  function Entered(g: State, i: nat, c: Conn): (r: State)
    requires i < |g.slots|
  {
    Put(g, i, c).(fds := g.fds[c.fd := i], hist := g.hist.(sessions := g.hist.sessions + 1))
  }

  lemma {:induction false} AdmitIs(cfg: Config, g: State, i: nat, c: Conn)
    requires i < |g.slots|
    ensures var r := Entered(Asked(g, c.session), i, c);
            Admit(cfg, Put(g, i, c), i) == if cfg.idle != 0 then ArmIdle(cfg, r, i) else r
  {
  }

  lemma {:induction false} EnterKeeps(cfg: Config, g: State, i: nat, c: Conn)
    requires Inv(g) && 0 < i < |g.slots| && !LiveAt(g, i) && g.closing == 0
    requires Live(c) && c.idx == i && c.timerId == 0 && c.session == g.hist.sessions && Clean(c.dec)
    requires c.fd in g.hist.open && forall k :: LiveAt(g, k) ==> g.slots[k].fd != c.fd
    ensures Inv(Entered(g, i, c)) && Inv(ArmIdle(cfg, Entered(g, i, c), i))
  {
    OccupyKeeps(g, i, c);
    IdleSlotHasNoTimer(g, i);
    var r := Entered(g, i, c);
    assert LiveAt(r, i) && r.timers == g.timers;
    ArmIdleKeeps(cfg, r, i);
  }

  // ---------------------------------------------------------------- receiving

  lemma {:induction false} MessageKeeps(cfg: Config, g: State, i: nat, msg: Bytes, now: int)
    requires Inv(g) && LiveAt(g, i)
    ensures Inv(Message(cfg, g, i, msg, now))
  {
    var h := Handle(cfg, g.slots[i], msg, now);
    var g1 := Put(Send(g, i, h.sends), i, h.c);
    DownKeeps(g, Send(g, i, h.sends).hist.down);
    PutKeeps(Send(g, i, h.sends), i, h.c);
    ActKeeps(g1, i, h.action);
  }

  lemma {:induction false} ActKeeps(g: State, i: nat, action: Action)
    requires Inv(g) && LiveAt(g, i)
    ensures action.Say? ==> Inv(Tell(g, i, action.body))
    ensures action.Drop? ==> Inv(Remove(g, i, CLOSE_EXCEPTION))
  {
    match action
    case Stay =>
    case Say(body) => TellKeeps(g, i, body);
    case Drop => RemoveKeeps(g, i, CLOSE_EXCEPTION);
  }

  lemma {:induction false} ReceiveKeeps(cfg: Config, g: State, fd: int, chunk: Bytes, now: int)
    requires Inv(g)
    ensures Inv(Receive(cfg, g, fd, chunk, now).0)
    decreases |chunk|
  {
    var at := ByFd(g, fd);
    if at.Some? {
      var i := at.value;
      var c := g.slots[i];
      FeedFromClean(c.dec, chunk);
      var fed := Feed(c.dec, chunk);
      PutKeeps(g, i, c.(dec := fed.d));
      if fed.Complete? {
        var g1 := Put(g, i, c.(dec := fed.d));
        MessageKeeps(cfg, g1, i, fed.msg, now);
        if fed.rest != [] { ReceiveKeeps(cfg, Message(cfg, g1, i, fed.msg, now), fd, fed.rest, now); }
      }
    }
  }

  // ---------------------------------------------------------------- closing

  lemma {:induction false} AgentCloseKeeps(g: State, idx: int, reason: int)
    requires Inv(g)
    ensures Inv(AgentClose(g, idx, reason))
    ensures forall k :: LiveAt(AgentClose(g, idx, reason), k) <==> LiveAt(g, k) && k != idx
    ensures var r := AgentClose(g, idx, reason);
            r.sweep == g.sweep && r.closing == g.closing && |r.slots| == |g.slots| && r.hist.sessions == g.hist.sessions
  {
    if ByIdx(g, idx).Some? {
      RemoveKeeps(g, idx, reason);
      RemoveShape(g, idx, reason);
    }
  }

  lemma {:induction false} PeerCloseKeeps(g: State, fd: int)
    requires Inv(g) && fd in g.hist.open
    ensures Inv(PeerClose(g, fd))
  {
    UncountedKeeps(g, fd);
    PeerCloseCounts(g, fd);
    if ByFd(Uncounted(g, fd), fd).Some? { PeerRemoveKeeps(Uncounted(g, fd), ByFd(Uncounted(g, fd), fd).value); }
  }

  lemma {:induction false} UncountedKeeps(g: State, fd: int)
    requires TableOk(g) && SessionsOk(g) && TimersOk(g) && SweepOk(g) && DecodersOk(g)
    ensures var r := Uncounted(g, fd); TableOk(r) && SessionsOk(r) && TimersOk(r) && SweepOk(r) && DecodersOk(r)
  {
    AlikeKeeps(g, Uncounted(g, fd));
  }

  lemma {:induction false} PeerRemoveKeeps(g: State, i: nat)
    requires TableOk(g) && SessionsOk(g) && TimersOk(g) && SweepOk(g) && DecodersOk(g) && LiveAt(g, i)
    ensures var r := Remove(g, i, CLOSE_BY_CLIENT);
            TableOk(r) && SessionsOk(r) && TimersOk(r) && SweepOk(r) && DecodersOk(r)
  {
    RemoveKeepsTable(g, i, CLOSE_BY_CLIENT);
    RemoveKeepsTimers(g, i, CLOSE_BY_CLIENT);
    RemoveKeepsRest(g, i, CLOSE_BY_CLIENT);
  }

  lemma {:induction false} PeerCloseCounts(g: State, fd: int)
    requires TableOk(g) && CountOk(g) && fd in g.hist.open
    ensures CountOk(PeerClose(g, fd))
  {
    var g1 := Uncounted(g, fd);
    var at := ByFd(g1, fd);
    if at.Some? {
      RemoveShape(g1, at.value, CLOSE_BY_CLIENT);
    } else {
      assert forall k :: LiveAt(g, k) ==> g.slots[k].fd != fd;
    }
  }

  function Uncounted(g: State, fd: int): (r: State) {
    g.(alive := g.alive - 1, hist := g.hist.(open := g.hist.open - multiset{fd}))
  }

  /** A popped timer leaves the rest in order, and no other timer pending for its slot. */
  lemma {:induction false} PopKeeps(g: State, pos: nat)
    requires Inv(g) && AtDue(Walk(g.timers, pos))
    ensures var r := g.(timers := Pop(Walk(g.timers, pos)).q);
            var id := g.timers.entries[pos].id;
            && Inv(r)
            && (id in g.timers.events ==>
                forall j :: j in r.timers.events ==> r.timers.events[j].code != g.timers.events[id].code)
  {
    var r := g.(timers := Pop(Walk(g.timers, pos)).q);
    var id := g.timers.entries[pos].id;
    RemoveKeepsConsistent(g.timers, pos);
    assert forall k :: LiveAt(r, k) <==> LiveAt(g, k);
    forall j | j in r.timers.events
      ensures Owned(r, j, r.timers.events[j].code)
      ensures id in g.timers.events ==> r.timers.events[j].code != g.timers.events[id].code
    {
      assert Owned(g, j, g.timers.events[j].code);
      if id in g.timers.events { assert Owned(g, id, g.timers.events[id].code); }
    }
    assert TableOk(r);
    assert TimersOk(r);
  }

  lemma {:induction false} CheckIdleKeeps(cfg: Config, g: State, idx: int, now: int)
    requires Inv(g) && forall id :: id in g.timers.events ==> g.timers.events[id].code != idx
    ensures Inv(CheckIdle(cfg, g, idx, now))
  {
    if ByIdx(g, idx).Some? {
      var c := g.slots[idx];
      if c.lastAct + cfg.idle < now {
        RemoveKeeps(g, idx, CLOSE_BY_DEFAULT);
      } else if c.lastCheck + cfg.idle <= now {
        PutKeeps(g, idx, c.(lastCheck := now));
        ArmIdleKeeps(cfg, Put(g, idx, c.(lastCheck := now)), idx);
      }
    }
  }

  lemma {:induction false} FireKeeps(cfg: Config, g: State, pos: nat, now: int)
    requires Inv(g) && AtDue(Walk(g.timers, pos))
    ensures Inv(FireAt(cfg, g, pos, now))
  {
    PopKeeps(g, pos);
    var id := g.timers.entries[pos].id;
    if id in g.timers.events {
      CheckIdleKeeps(cfg, g.(timers := Pop(Walk(g.timers, pos)).q), g.timers.events[id].code, now);
    }
  }

  /** The sweep closes exactly the slots it passes. */
  lemma {:induction false} SweepKeeps(g: State, reason: int, n: int)
    requires Inv(g) && g.closing != 0
    ensures var r := Sweep(g, reason, n);
            && Inv(r) && |r.slots| == |g.slots| && r.closing == g.closing && r.hist.sessions == g.hist.sessions
            && r.sweep == (if n <= 0 || |g.slots| <= g.sweep then g.sweep
                           else if g.sweep + n <= |g.slots| then g.sweep + n else |g.slots|)
            && (forall k :: LiveAt(r, k) <==> LiveAt(g, k) && !(g.sweep <= k < r.sweep))
    decreases n
  {
    if 0 < n && g.sweep < |g.slots| {
      SweepOneKeeps(g, reason);
      SweepKeeps(SweepOne(g, reason), reason, n - 1);
    }
  }

  function SweepOne(g: State, reason: int): (r: State) {
    AgentClose(g, g.sweep, reason).(sweep := g.sweep + 1)
  }

  lemma {:induction false} SweepOneKeeps(g: State, reason: int)
    requires Inv(g) && g.closing != 0
    ensures var r := SweepOne(g, reason);
            && Inv(r) && |r.slots| == |g.slots| && r.closing == g.closing && r.hist.sessions == g.hist.sessions
            && forall k :: LiveAt(r, k) <==> LiveAt(g, k) && k != g.sweep
  {
    AgentCloseKeeps(g, g.sweep, reason);
    var g1 := AgentClose(g, g.sweep, reason);
    AlikeKeeps(g1, SweepOne(g, reason));
  }

  // ---------------------------------------------------------------- runs

  lemma {:induction false} ApplyKeeps(cfg: Config, g: State, s: Step)
    requires Inv(g) && Enabled(cfg, g, s)
    ensures Inv(Apply(cfg, g, s))
  {
    match s
    case SAccept(fd, created, sent, now) => AcceptKeeps(cfg, g, fd, created, sent, now);
    case SReceive(fd, chunk, now) => ReceiveKeeps(cfg, g, fd, chunk, now);
    case SPeerClose(fd) => PeerCloseKeeps(g, fd);
    case SAgentClose(idx, reason) => AgentCloseKeeps(g, idx, reason);
    case SAgentData(idx, bytes, now) => AgentDataKeeps(g, idx, bytes, now);
    case SFire(pos, now) => FireKeeps(cfg, g, pos, now);
    case SClock(ms) =>
      var r := g.(timers := g.timers.(now := ms));
      assert forall k :: LiveAt(r, k) <==> LiveAt(g, k);
      ClockKeeps(g, ms);
    case SClose(reason, n) => CloseKeeps(g, reason, n);
  }

  lemma {:induction false} AgentDataKeeps(g: State, idx: int, bytes: Bytes, now: int)
    requires Inv(g)
    ensures Inv(AgentData(g, idx, bytes, now))
  {
    if ByIdx(g, idx).Some? {
      var g1 := Send(g, idx, [Payload(bytes)]);
      DownKeeps(g, g1.hist.down);
      PutKeeps(g1, idx, g1.slots[idx].(lastAct := now));
    }
  }

  lemma {:induction false} ClockKeeps(g: State, ms: int)
    requires Inv(g)
    ensures Inv(g.(timers := g.timers.(now := ms)))
  {
    var r := g.(timers := g.timers.(now := ms));
    assert forall k :: LiveAt(r, k) <==> LiveAt(g, k);
    assert TableOk(r);
    assert TimersOk(r) by {
      forall id | id in r.timers.events
        ensures Owned(r, id, r.timers.events[id].code)
      {
        assert Owned(g, id, g.timers.events[id].code);
      }
    }
  }

  lemma {:induction false} CloseKeeps(g: State, reason: int, n: int)
    requires Inv(g) && reason != 0
    ensures Inv(Close(g, reason, n).0)
    ensures Close(g, reason, n).0.closing == if g.closing == 0 then reason else g.closing
  {
    var g1 := if g.closing == 0 then g.(closing := reason) else g;
    AlikeKeeps(g, g1);
    SweepKeeps(g1, reason, n);
  }

  lemma {:induction false} RunThenOne(cfg: Config, g: State, steps: seq<Step>, s: Step)
    requires CanRun(cfg, g, steps) && Enabled(cfg, Run(cfg, g, steps), s)
    ensures CanRun(cfg, g, steps + [s]) && Run(cfg, g, steps + [s]) == Apply(cfg, Run(cfg, g, steps), s)
    decreases |steps|
  {
    if steps == [] {
      assert [s][1..] == [];
      assert steps + [s] == [s];
    } else {
      assert (steps + [s])[1..] == steps[1..] + [s];
      RunThenOne(cfg, Apply(cfg, g, steps[0]), steps[1..], s);
    }
  }

  lemma {:induction false} RunKeeps(cfg: Config, g: State, steps: seq<Step>)
    requires Inv(g) && CanRun(cfg, g, steps)
    ensures Inv(Run(cfg, g, steps))
    decreases |steps|
  {
    if steps != [] {
      ApplyKeeps(cfg, g, steps[0]);
      RunKeeps(cfg, Apply(cfg, g, steps[0]), steps[1..]);
    }
  }

  /**
    In every run of a gate from its construction, looking a socket up finds slot `i` exactly when
    slot `i` is live and serves that socket, and the slot knows its own index: the `0` entries
    that ReportEvent leaves behind are never taken for connections.
   */
  lemma {:induction false} LookupInEveryRun(cfg: Config, max: nat, ms: int, steps: seq<Step>, fd: int, i: nat)
    requires CanRun(cfg, Initial(max, ms), steps)
    ensures var g := Run(cfg, Initial(max, ms), steps);
            && (ByFd(g, fd) == Some(i) <==> LiveAt(g, i) && g.slots[i].fd == fd)
            && (LiveAt(g, i) ==> g.slots[i].idx == i && 0 < i)
  {
    InitialInv(max, ms);
    RunKeeps(cfg, Initial(max, ms), steps);
  }

  /**
    In every run, when a pending timer comes up, the connection in its slot is the one it was
    armed for, no other timer is pending for that slot, and the callback leaves every other
    slot as it was.
   */
  lemma {:induction false} TimerMeetsItsOwnConnection(
    cfg: Config, max: nat, ms: int, steps: seq<Step>, pos: nat, now: int)
    requires CanRun(cfg, Initial(max, ms), steps)
    requires AtDue(Walk(Run(cfg, Initial(max, ms), steps).timers, pos))
    ensures var g := Run(cfg, Initial(max, ms), steps);
            var id := g.timers.entries[pos].id;
            var r := FireAt(cfg, g, pos, now);
            if id !in g.timers.events then r.slots == g.slots && r.hist == g.hist
            else
              var i := g.timers.events[id].code;
              && LiveAt(g, i) && g.slots[i].timerId == id && ArmedFor(g, id, g.slots[i].session)
              && (forall j :: j in g.timers.events && g.timers.events[j].code == i ==> j == id)
              && |r.slots| == |g.slots| && (forall k :: 0 <= k < |g.slots| && k != i ==> r.slots[k] == g.slots[k])
  {
    InitialInv(max, ms);
    RunKeeps(cfg, Initial(max, ms), steps);
    var g := Run(cfg, Initial(max, ms), steps);
    var id := g.timers.entries[pos].id;
    if id in g.timers.events {
      assert Owned(g, id, g.timers.events[id].code);
      forall j | j in g.timers.events && g.timers.events[j].code == g.timers.events[id].code
        ensures j == id
      {
        assert Owned(g, j, g.timers.events[j].code);
      }
    }
  }

  // A timer for slot i is pending, due at `at`.
  ghost predicate ArmedAt(g: State, i: nat, at: int) {
    && i < |g.slots| && g.slots[i].timerId in g.timers.events
    && g.timers.events[g.slots[i].timerId] == TimerEvent(i, 0, at)
  }

  /**
    What a firing idle timer decides: the connection is removed if and only if its last activity
    lies more than the idle period back; kept, it has a new timer for a full period if and only
    if the last check lies a period back, and none at all otherwise.  The full period is that many
    seconds if and only if these fit an int in milliseconds.
   */
  lemma {:induction false} IdleTimerDecides(cfg: Config, g: State, pos: nat, now: int)
    requires Inv(g) && AtDue(Walk(g.timers, pos)) && g.timers.entries[pos].id in g.timers.events
    ensures var i := g.timers.events[g.timers.entries[pos].id].code;
            var r := FireAt(cfg, g, pos, now);
            && LiveAt(g, i)
            && (LiveAt(r, i) <==> now <= g.slots[i].lastAct + cfg.idle)
            && (LiveAt(r, i) && g.slots[i].lastCheck + cfg.idle <= now ==> ArmedAt(r, i, g.timers.now + IdleMs(cfg)))
            && (LiveAt(r, i) && g.slots[i].lastCheck + cfg.idle <= now ==>
                (ArmedAt(r, i, g.timers.now + cfg.idle * 1000) <==> PeriodFits(cfg)))
            && (LiveAt(r, i) && now < g.slots[i].lastCheck + cfg.idle ==>
                forall id :: id in r.timers.events ==> r.timers.events[id].code != i)
  {
    var id := g.timers.entries[pos].id;
    assert Owned(g, id, g.timers.events[id].code);
    PopKeeps(g, pos);
    IdlePeriod(cfg);
  }

  /**
    An admitted connection is found by its socket, in a slot that was free, which keeps only the area
    of the session before, with its timer pending
    if there is an idle period: due after that many seconds if and only if these fit an int in
    milliseconds.
   */
  lemma {:induction false} AdmittedIsReachable(cfg: Config, g: State, fd: int, created: bool, sent: bool, now: int)
    requires Inv(g) && (forall i :: LiveAt(g, i) ==> g.slots[i].fd != fd)
    requires Accept(cfg, g, fd, created, sent, now).Admitted?
    ensures var r := Accept(cfg, g, fd, created, sent, now).g;
            var i := NextIdx(Counted(g, fd)).value;
            var c := r.slots[i];
            && ByFd(r, fd) == Some(i) && !LiveAt(g, i)
            && c.phase.Connected? && c.idx == i && c.fd == fd && c.session == g.hist.sessions
            && c.lastAct == now && c.lastCheck == 0 && c.dec.msgLen == 0
            && c.uid == 0 && c.dst == 0 && c.area == g.slots[i].area
            && (g.slots[i].dec.buf == [] ==> |c.dec.buf| == 65539)
            && (if cfg.idle != 0 then ArmedAt(r, i, g.timers.now + IdleMs(cfg)) else r.timers == g.timers)
            && (cfg.idle != 0 ==> (ArmedAt(r, i, g.timers.now + cfg.idle * 1000) <==> PeriodFits(cfg)))
            && (forall k :: LiveAt(g, k) ==> r.slots[k] == g.slots[k] && k != i)
  {
    IdlePeriod(cfg);
  }

  /**
    An accept for which there is a slot is admitted if and only if the gate is not closing, the slot
    has a receive buffer or gets one, and the auth request goes out.  Refused, it changes nothing but
    the counter, and what the slot that stays free holds.
   */
  lemma {:induction false} AcceptOutcomeExactlyWhen(
    cfg: Config, g: State, fd: int, created: bool, sent: bool, now: int)
    requires NextIdx(Counted(g, fd)).Some?
    ensures var a := Accept(cfg, g, fd, created, sent, now);
            var i := NextIdx(Counted(g, fd)).value;
            && (a.Admitted? <==> g.closing == 0 && (g.slots[i].dec.buf != [] || created) && sent)
            && (!a.Admitted? ==>
                  && a.Refused? && a.g.alive == g.alive + 1 && a.g.fds == g.fds && a.g.timers == g.timers
                  && a.g.hist.log == g.hist.log && a.g.hist.sessions == g.hist.sessions
                  && a.g.hist.down == g.hist.down && |a.g.slots| == |g.slots| && !LiveAt(a.g, i)
                  && forall k :: 0 <= k < |g.slots| && k != i ==> a.g.slots[k] == g.slots[k])
  {
  }

  // ---------------------------------------------------------------- slot allocation

  function LiveCount(slots: seq<Conn>): (n: nat)
    decreases |slots|
  {
    if slots == [] then 0
    else LiveCount(slots[..|slots| - 1]) + if Live(slots[|slots| - 1]) then 1 else 0
  }

  /** One occurrence in `m` for each live slot. */
  lemma {:induction false} LiveSocketsFit(slots: seq<Conn>, m: multiset<int>)
    requires forall i, j :: 0 <= i < j < |slots| && Live(slots[i]) && Live(slots[j]) ==> slots[i].fd != slots[j].fd
    requires forall i :: 0 <= i < |slots| && Live(slots[i]) ==> slots[i].fd in m
    ensures LiveCount(slots) <= |m|
    decreases |slots|
  {
    if slots != [] {
      var last := slots[|slots| - 1];
      var rest := if Live(last) then m - multiset{last.fd} else m;
      LiveSocketsFit(slots[..|slots| - 1], rest);
      assert Live(last) ==> |rest| == |m| - 1;
    }
  }

  lemma {:induction false} AllLiveCount(slots: seq<Conn>, from: nat)
    requires from <= |slots| && forall i :: from <= i < |slots| ==> Live(slots[i])
    ensures |slots| - from <= LiveCount(slots)
    decreases |slots|
  {
    if from < |slots| { AllLiveCount(slots[..|slots| - 1], from); }
  }

  /** Live connections never outnumber the counter of accepts not yet notified closed. */
  lemma {:induction false} LiveNeverExceedsAlive(g: State)
    requires Inv(g)
    ensures LiveCount(g.slots) <= g.alive
  {
    assert forall i :: 0 <= i < |g.slots| && Live(g.slots[i]) ==> LiveAt(g, i);
    LiveSocketsFit(g.slots, g.hist.open);
  }

  /**
    In every run, an accept indexes the slot vector with -1 exactly when the counter, after the
    increment, has reached the maximum; otherwise GetNextIdx finds the first free slot above 0.
   */
  lemma {:induction false} AcceptIsDefinedExactlyWhen(
    cfg: Config, max: nat, ms: int, steps: seq<Step>, fd: int, created: bool, sent: bool, now: int)
    requires CanRun(cfg, Initial(max, ms), steps)
    ensures var g := Run(cfg, Initial(max, ms), steps);
            var next := NextIdx(Counted(g, fd));
            && (Accept(cfg, g, fd, created, sent, now).Undefined? <==> |g.slots| <= g.alive + 1)
            && (g.alive + 1 < |g.slots| ==>
                next.Some? && 0 < next.value < |g.slots| && !LiveAt(g, next.value)
                && forall k :: 0 < k < next.value ==> LiveAt(g, k))
  {
    InitialInv(max, ms);
    RunKeeps(cfg, Initial(max, ms), steps);
    var g := Run(cfg, Initial(max, ms), steps);
    LiveNeverExceedsAlive(g);
    if g.alive + 1 < |g.slots| && FreeFrom(g.slots, 1).None? {
      AllLiveCount(g.slots, 1);
    }
  }

  // ---------------------------------------------------------------- shutdown

  // From `g` to `r` no slot comes to life and the sweep does not move.
  ghost predicate OnlyCloses(g: State, r: State) {
    && |r.slots| == |g.slots| && r.closing == g.closing && r.sweep == g.sweep && r.hist.sessions == g.hist.sessions
    && forall k :: LiveAt(r, k) ==> LiveAt(g, k) && r.slots[k].session == g.slots[k].session
  }

  lemma {:induction false} MessageOnlyCloses(cfg: Config, g: State, i: nat, msg: Bytes, now: int)
    requires LiveAt(g, i)
    ensures OnlyCloses(g, Message(cfg, g, i, msg, now))
  {
    var h := Handle(cfg, g.slots[i], msg, now);
    if h.action.Drop? { RemoveShape(Put(g, i, h.c), i, CLOSE_EXCEPTION); }
  }

  lemma {:induction false} ReceiveOnlyCloses(cfg: Config, g: State, fd: int, chunk: Bytes, now: int)
    requires DecodersOk(g)
    ensures OnlyCloses(g, Receive(cfg, g, fd, chunk, now).0)
    decreases |chunk|
  {
    var at := ByFd(g, fd);
    if at.Some? {
      var i := at.value;
      FeedFromClean(g.slots[i].dec, chunk);
      var fed := Feed(g.slots[i].dec, chunk);
      var g1 := Put(g, i, g.slots[i].(dec := fed.d));
      assert OnlyCloses(g, g1);
      if fed.Complete? {
        MessageOnlyCloses(cfg, g1, i, fed.msg, now);
        MessageKeepsDecoders(cfg, g1, i, fed.msg, now);
        if fed.rest != [] { ReceiveOnlyCloses(cfg, Message(cfg, g1, i, fed.msg, now), fd, fed.rest, now); }
      }
    }
  }

  lemma {:induction false} FireOnlyCloses(cfg: Config, g: State, pos: nat, now: int)
    requires AtDue(Walk(g.timers, pos))
    ensures OnlyCloses(g, FireAt(cfg, g, pos, now))
  {
    var id := g.timers.entries[pos].id;
    var g1 := g.(timers := Pop(Walk(g.timers, pos)).q);
    if id in g.timers.events {
      var i := g.timers.events[id].code;
      if ByIdx(g1, i).Some? && g.slots[i].lastAct + cfg.idle < now { RemoveShape(g1, i, CLOSE_BY_DEFAULT); }
    }
  }

  lemma {:induction false} RefusedOnlyCloses(cfg: Config, g: State, fd: int, created: bool, sent: bool, now: int)
    requires Accept(cfg, g, fd, created, sent, now).Refused?
    ensures OnlyCloses(g, Accept(cfg, g, fd, created, sent, now).g)
  {
  }

  lemma {:induction false} StepOnlyCloses(cfg: Config, g: State, s: Step)
    requires Inv(g) && Enabled(cfg, g, s) && !s.SClose?
    requires s.SAccept? ==> Accept(cfg, g, s.fd, s.created, s.sent, s.now).Refused?
    ensures OnlyCloses(g, Apply(cfg, g, s))
  {
    match s
    case SAccept(fd, created, sent, now) => RefusedOnlyCloses(cfg, g, fd, created, sent, now);
    case SReceive(fd, chunk, now) => ReceiveOnlyCloses(cfg, g, fd, chunk, now);
    case SFire(pos, now) => FireOnlyCloses(cfg, g, pos, now);
    case SPeerClose(fd) => PeerOnlyCloses(g, fd);
    case SAgentClose(idx, reason) => AgentOnlyCloses(g, idx, reason);
    case _ =>
  }

  lemma {:induction false} PeerOnlyCloses(g: State, fd: int)
    ensures OnlyCloses(g, PeerClose(g, fd))
  {
    var at := ByFd(Uncounted(g, fd), fd);
    if at.Some? { RemoveShape(Uncounted(g, fd), at.value, CLOSE_BY_CLIENT); }
  }

  lemma {:induction false} AgentOnlyCloses(g: State, idx: int, reason: int)
    ensures OnlyCloses(g, AgentClose(g, idx, reason))
  {
    if ByIdx(g, idx).Some? { RemoveShape(g, idx, reason); }
  }

  /** The slots the closing calls of a run may visit. */
  function Quota(steps: seq<Step>): (n: nat)
    decreases |steps|
  {
    if steps == [] then 0
    else (if steps[0].SClose? && 0 < steps[0].n then steps[0].n else 0) + Quota(steps[1..])
  }

  /**
    Once closing has begun, in any run and whatever else it interleaves: the sweep stands at the
    sum of the calls' budgets or at the end of the table, every slot below it is empty, and no
    slot has come to life.
   */
  lemma {:induction false} ShutdownSweep(cfg: Config, g: State, steps: seq<Step>)
    requires Inv(g) && g.closing != 0 && g.sweep <= |g.slots| && CanRun(cfg, g, steps)
    ensures var r := Run(cfg, g, steps);
            && Inv(r) && |r.slots| == |g.slots| && r.closing == g.closing && r.hist.sessions == g.hist.sessions
            && r.sweep == (if g.sweep + Quota(steps) <= |g.slots| then g.sweep + Quota(steps) else |g.slots|)
            && (forall k :: 0 <= k < r.sweep ==> !LiveAt(r, k))
            && (forall k :: LiveAt(r, k) ==> LiveAt(g, k))
    decreases |steps|
  {
    if steps != [] {
      var g1 := ClosingStep(cfg, g, steps[0]);
      ShutdownSweep(cfg, g1, steps[1..]);
    }
  }

  lemma {:induction false} ClosingStep(cfg: Config, g: State, s: Step) returns (r: State)
    requires Inv(g) && g.closing != 0 && g.sweep <= |g.slots| && Enabled(cfg, g, s)
    ensures r == Apply(cfg, g, s) && Inv(r)
    ensures |r.slots| == |g.slots| && r.closing == g.closing && r.hist.sessions == g.hist.sessions
    ensures r.sweep == (if g.sweep + Quota([s]) <= |g.slots| then g.sweep + Quota([s]) else |g.slots|)
    ensures Quota([s]) == if s.SClose? && 0 < s.n then s.n else 0
    ensures forall k :: LiveAt(r, k) ==> LiveAt(g, k)
  {
    r := Apply(cfg, g, s);
    ApplyKeeps(cfg, g, s);
    assert [s][1..] == [];
    if s.SClose? { SweepKeeps(g, s.reason, s.n); } else { StepOnlyCloses(cfg, g, s); }
  }

  lemma {:induction false} CloseBegins(g: State, reason: int, n: int) returns (r: State)
    requires Inv(g) && g.closing == 0 && reason != 0
    ensures r == Close(g, reason, n).0 && Inv(r) && r.closing == reason && |r.slots| == |g.slots|
    ensures r.hist.sessions == g.hist.sessions
    ensures r.sweep == if n <= 0 then 0 else if n <= |g.slots| then n else |g.slots|
  {
    var g1 := g.(closing := reason);
    AlikeKeeps(g, g1);
    SweepKeeps(g1, reason, n);
    r := Close(g, reason, n).0;
  }

  /** Calls whose budgets reach the size of the table leave no connection. */
  lemma {:induction false} ShutdownEmptiesTheTable(cfg: Config, g: State, reason: int, n: int, steps: seq<Step>)
    requires Inv(g) && g.closing == 0 && reason != 0 && CanRun(cfg, g, [SClose(reason, n)] + steps)
    requires |g.slots| <= Quota([SClose(reason, n)] + steps)
    ensures var r := Run(cfg, g, [SClose(reason, n)] + steps);
            r.hist.sessions == g.hist.sessions && forall k :: !LiveAt(r, k)
  {
    var all := [SClose(reason, n)] + steps;
    assert all[1..] == steps;
    var r := CloseBegins(g, reason, n);
    ShutdownSweep(cfg, r, steps);
  }

  /**
    The main loop leaves its closing phase when OnClosing returns 0 or less, and OnClosing
    returns 1 when the sweep is finished.  So a table larger than the budget is left after one
    call, with everything above the budget still live, and a table that fits is never left.
   */
  lemma {:induction false} MainLoopLeavesUnfinished(g: State, reason: int, n: int)
    requires Inv(g) && g.closing == 0 && reason != 0 && 0 < n
    ensures Close(g, reason, n).1 <==> |g.slots| <= n
    ensures forall k :: n <= k ==> (LiveAt(Close(g, reason, n).0, k) <==> LiveAt(g, k))
    ensures Close(g, reason, n).1 ==> Close(Close(g, reason, n).0, reason, n) == Close(g, reason, n)
  {
    var g1 := g.(closing := reason);
    AlikeKeeps(g, g1);
    SweepKeeps(g1, reason, n);
  }
}
