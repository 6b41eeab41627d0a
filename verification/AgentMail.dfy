/**
  What an agent sends to the gate, and whom it reaches.  The agent learns a session's slot index
  from its CONNECTED report and addresses everything for the session to that index; the gate looks
  at the index alone (gate/GateAgentChannelMsgHandler.cpp).  Letters travel while the gate goes on:
  the session may be over when one arrives, and another one may have its slot.

  `World` is the gate and the letters under way, from one agent or several and in any order;
  `arrived` is the history of what became of them.
 */
module AgentMail {
  import opened Values
  import opened FrameDecoder
  import opened Timers
  import opened Gate
  import opened GateTable
  import opened GateSessions
  import opened GateStreams

  datatype Content = Deliver(bytes: Bytes) | Kick(reason: int)

  // `to` is the session the agent means, which the message itself does not say.
  datatype Letter = Letter(to: nat, idx: int, content: Content)

  // The session a letter reached, and the state its connection was in.
  datatype Arrived = Arrived(letter: Letter, reached: Option<nat>, phase: Phase)

  datatype World = World(g: State, mail: seq<Letter>, arrived: seq<Arrived>)

  datatype Move =
    | MGate(st: Step)          // anything the gate does but for the agent
    | MPost(l: Letter)         // the agent sends
    | MArrive(k: nat, now: int)

  /** The agent has been told that session s is connected, at this index. */
  ghost predicate Told(g: State, s: nat, idx: int) {
    exists k :: 0 <= k < |g.hist.log| && Opens(g.hist.log[k]) && g.hist.log[k].session == s
                && g.hist.log[k].report.idx == idx
  }

  predicate Opens(l: Logged) {
    l.report.body.Opened?
  }

  /** `waits`: the agent sends only for sessions it has been told are connected, to the index it was told. */
  ghost predicate MoveEnabled(cfg: Config, waits: bool, w: World, m: Move) {
    match m
    case MGate(st) => !st.SAgentData? && !st.SAgentClose? && Enabled(cfg, w.g, st)
    case MPost(l) => waits ==> Told(w.g, l.to, l.idx)
    case MArrive(k, _) => k < |w.mail|
  }

  function ReachedBy(g: State, idx: int): (r: Option<nat>) {
    var at := ByIdx(g, idx);
    if at.Some? then Some(g.slots[at.value].session) else None
  }

  function PhaseAt(g: State, idx: int): (p: Phase) {
    var at := ByIdx(g, idx);
    if at.Some? then g.slots[at.value].phase else Invalid
  }

  /** The step GateAgentChannelMsgHandler takes for a letter. */
  function StepFor(l: Letter, now: int): (st: Step) {
    match l.content
    case Deliver(bytes) => SAgentData(l.idx, bytes, now)
    case Kick(reason) => SAgentClose(l.idx, reason)
  }

  ghost function MoveOn(cfg: Config, w: World, m: Move): (r: World)
    requires MoveEnabled(cfg, false, w, m)
  {
    match m
    case MGate(st) => w.(g := Apply(cfg, w.g, st))
    case MPost(l) => w.(mail := w.mail + [l])
    case MArrive(k, now) =>
      var l := w.mail[k];
      World(Apply(cfg, w.g, StepFor(l, now)), w.mail[..k] + w.mail[k + 1..],
            w.arrived + [Arrived(l, ReachedBy(w.g, l.idx), PhaseAt(w.g, l.idx))])
  }

  ghost predicate CanMove(cfg: Config, waits: bool, w: World, ms: seq<Move>)
    decreases |ms|
  {
    ms == [] || (MoveEnabled(cfg, waits, w, ms[0]) && CanMove(cfg, waits, MoveOn(cfg, w, ms[0]), ms[1..]))
  }

  ghost function Moved(cfg: Config, waits: bool, w: World, ms: seq<Move>): (r: World)
    requires CanMove(cfg, waits, w, ms)
    decreases |ms|
  {
    if ms == [] then w else Moved(cfg, waits, MoveOn(cfg, w, ms[0]), ms[1..])
  }

  function NewWorld(max: nat, ms: int): (w: World) {
    World(Initial(max, ms), [], [])
  }

  // ---------------------------------------------------------------- steps that open and send nothing

  ghost predicate Calm(g: State, r: State) {
    && r.hist.down == g.hist.down && r.hist.sessions == g.hist.sessions
    && g.hist.log <= r.hist.log
    && forall k :: |g.hist.log| <= k < |r.hist.log| ==> !Opens(r.hist.log[k])
  }

  lemma {:induction false} CalmTwice(a: State, b: State, c: State)
    requires Calm(a, b) && Calm(b, c)
    ensures Calm(a, c)
  {
    forall k | |a.hist.log| <= k < |c.hist.log|
      ensures !Opens(c.hist.log[k])
    {
      if k < |b.hist.log| { assert c.hist.log[k] == b.hist.log[k]; }
    }
  }

  lemma {:induction false} RemoveCalm(g: State, i: nat, reason: int)
    requires i < |g.slots|
    ensures Calm(g, Remove(g, i, reason))
  {
    RemoveLogs(g, i, reason);
  }

  lemma {:induction false} SweepCalm(g: State, reason: int, n: int)
    ensures Calm(g, Sweep(g, reason, n))
    decreases n
  {
    if 0 < n && g.sweep < |g.slots| {
      var g1 := SweepOne(g, reason);
      if ByIdx(g, g.sweep).Some? { RemoveCalm(g, g.sweep, reason); }
      assert Calm(g, g1);
      SweepCalm(g1, reason, n - 1);
      CalmTwice(g, g1, Sweep(g1, reason, n - 1));
    }
  }

  lemma {:induction false} CheckIdleCalm(cfg: Config, g: State, idx: int, now: int)
    ensures Calm(g, CheckIdle(cfg, g, idx, now))
  {
    if ByIdx(g, idx).Some? && g.slots[idx].lastAct + cfg.idle < now { RemoveCalm(g, idx, CLOSE_BY_DEFAULT); }
  }

  ghost predicate Admits(cfg: Config, g: State, st: Step) {
    st.SAccept? && Accept(cfg, g, st.fd, st.created, st.sent, st.now).Admitted?
  }

  lemma {:induction false} StepCalm(cfg: Config, g: State, st: Step)
    requires Enabled(cfg, g, st) && !st.SReceive? && !st.SAgentData? && !Admits(cfg, g, st)
    ensures Calm(g, Apply(cfg, g, st))
  {
    match st
    case SAccept(fd, created, sent, now) =>
    case SPeerClose(fd) => PeerCalm(g, fd);
    case SAgentClose(idx, reason) => if ByIdx(g, idx).Some? { RemoveCalm(g, idx, reason); }
    case SFire(pos, now) => FireCalm(cfg, g, pos, now);
    case SClock(ms) =>
    case SClose(reason, n) => SweepCalm(if g.closing == 0 then g.(closing := reason) else g, reason, n);
  }

  lemma {:induction false} PeerCalm(g: State, fd: int)
    ensures Calm(g, PeerClose(g, fd))
  {
    var at := ByFd(Uncounted(g, fd), fd);
    if at.Some? { RemoveCalm(Uncounted(g, fd), at.value, CLOSE_BY_CLIENT); }
  }

  lemma {:induction false} FireCalm(cfg: Config, g: State, pos: nat, now: int)
    requires Enabled(cfg, g, SFire(pos, now))
    ensures Calm(g, FireAt(cfg, g, pos, now))
  {
    var id := g.timers.entries[pos].id;
    if id in g.timers.events {
      CheckIdleCalm(cfg, g.(timers := Pop(Walk(g.timers, pos)).q), g.timers.events[id].code, now);
    }
  }

  // ---------------------------------------------------------------- who has a slot after whom

  /** Who has the slot of a session the agent was told of is that session or a later one. */
  ghost predicate ToldOk(g: State) {
    forall k :: 0 <= k < |g.hist.log| && Opens(g.hist.log[k]) ==> NotEarlier(g, g.hist.log[k])
  }

  ghost predicate NotEarlier(g: State, l: Logged) {
    LiveAt(g, l.report.idx) ==> l.session <= g.slots[l.report.idx].session
  }

  lemma {:induction false} LoggedIsTraced(log: seq<Logged>, k: nat)
    requires k < |log|
    ensures log[k].report in Trace(log, log[k].session)
    decreases |log|
  {
    if k < |log| - 1 { LoggedIsTraced(log[..|log| - 1], k); }
  }

  /** A session the agent was told of has been accepted; served, it is authorised and in the slot it was told. */
  lemma {:induction false} ToldIsServed(cfg: Config, g: State, s: nat, idx: int)
    requires TracesOk(cfg, g) && Told(g, s, idx)
    ensures s < g.hist.sessions
    ensures forall i :: Serves(g, i, s) ==> i == idx && g.slots[i].phase.Authorized?
  {
    var k :| 0 <= k < |g.hist.log| && Opens(g.hist.log[k]) && g.hist.log[k].session == s
             && g.hist.log[k].report.idx == idx;
    LoggedIsTraced(g.hist.log, k);
    forall i | Serves(g, i, s)
      ensures i == idx && g.slots[i].phase.Authorized?
    {
      assert Fits(cfg, g.slots[i], i, Trace(g.hist.log, s));
    }
  }

  lemma {:induction false} ToldStays(cfg: Config, g: State, r: State)
    requires TracesOk(cfg, g) && ToldOk(g) && g.hist.log <= r.hist.log
    requires forall k :: |g.hist.log| <= k < |r.hist.log| && Opens(r.hist.log[k]) ==> NotEarlier(r, r.hist.log[k])
    requires forall i :: LiveAt(r, i) ==>
               Serves(g, i, r.slots[i].session) || g.hist.sessions <= r.slots[i].session
    ensures ToldOk(r)
  {
    forall k | 0 <= k < |g.hist.log| && Opens(g.hist.log[k])
      ensures NotEarlier(r, g.hist.log[k])
    {
      var l := g.hist.log[k];
      assert Told(g, l.session, l.report.idx);
      ToldIsServed(cfg, g, l.session, l.report.idx);
      assert NotEarlier(g, l);
    }
  }

  // ---------------------------------------------------------------- what each client is sent

  /** What was sent down to the client of session s, oldest first. */
  function DownOf(down: seq<Sent>, s: nat): (r: seq<Down>)
    decreases |down|
  {
    if down == [] then []
    else
      var last := down[|down| - 1];
      DownOf(down[..|down| - 1], s) + if last.session == s then [last.msg] else []
  }

  lemma {:induction false} DownOfAppend(down: seq<Sent>, d: Sent, s: nat)
    ensures DownOf(down + [d], s) == if d.session == s then DownOf(down, s) + [d.msg] else DownOf(down, s)
  {
    assert (down + [d])[..|down|] == down;
  }

  lemma {:induction false} DownOfTagged(down: seq<Sent>, t: nat, ms: seq<Down>, s: nat)
    ensures DownOf(down + Tagged(t, ms), s) == if s == t then DownOf(down, s) + ms else DownOf(down, s)
    decreases |ms|
  {
    if ms == [] {
      assert down + Tagged(t, ms) == down;
    } else {
      var n := |ms| - 1;
      DownOfTagged(down, t, ms[..n], s);
      TaggedSnoc(down, t, ms);
      DownOfAppend(down + Tagged(t, ms[..n]), Sent(t, ms[n]), s);
      JoinSnoc(DownOf(down, s), ms);
    }
  }

  lemma {:induction false} TaggedSnoc(down: seq<Sent>, t: nat, ms: seq<Down>)
    requires ms != []
    ensures var n := |ms| - 1; (down + Tagged(t, ms[..n])) + [Sent(t, ms[n])] == down + Tagged(t, ms)
  {
  }

  lemma {:induction false} JoinSnoc(a: seq<Down>, ms: seq<Down>)
    requires ms != []
    ensures (a + ms[..|ms| - 1]) + [ms[|ms| - 1]] == a + ms
  {
  }

  predicate IsEarly(a: Arrived, s: nat) {
    a.letter.content.Deliver? && a.reached == Some(s) && !a.phase.Authorized?
  }

  /** The frames that reached session s before it was authorised. */
  function EarlyOf(arrived: seq<Arrived>, s: nat): (r: seq<Down>)
    ensures forall k :: 0 <= k < |r| ==> r[k].Payload?
    decreases |arrived|
  {
    if arrived == [] then []
    else
      var last := arrived[|arrived| - 1];
      EarlyOf(arrived[..|arrived| - 1], s) + if IsEarly(last, s) then [Payload(last.letter.content.bytes)] else []
  }

  lemma {:induction false} EarlyOfAppend(arrived: seq<Arrived>, a: Arrived, s: nat)
    ensures EarlyOf(arrived + [a], s)
            == EarlyOf(arrived, s) + if IsEarly(a, s) then [Payload(a.letter.content.bytes)] else []
  {
    assert (arrived + [a])[..|arrived|] == arrived;
  }

  lemma {:induction false} NoneEarly(arrived: seq<Arrived>, s: nat)
    ensures EarlyOf(arrived, s) == [] <==> forall k :: 0 <= k < |arrived| ==> !IsEarly(arrived[k], s)
    decreases |arrived|
  {
    if arrived != [] {
      var init := arrived[..|arrived| - 1];
      NoneEarly(init, s);
      assert forall k :: 0 <= k < |init| ==> init[k] == arrived[k];
    }
  }

  /** NEED_AUTH, the early frames and, once the session is opened, AUTH_RSP with result 0 and then data. */
  ghost predicate Shaped(ms: seq<Down>, early: seq<Down>, authorised: bool) {
    var n := 1 + |early|;
    && n <= |ms| && ms[..n] == [NeedAuth] + early
    && (if authorised then n < |ms| && ms[n] == AuthRsp(0) && forall k :: n < k < |ms| ==> ms[k].Payload?
        else |ms| == n)
  }

  ghost predicate SessionDown(g: State, arrived: seq<Arrived>, s: nat) {
    var ms, early := DownOf(g.hist.down, s), EarlyOf(arrived, s);
    && (g.hist.sessions <= s ==> ms == [] && early == [])
    && (s < g.hist.sessions ==> Shaped(ms, early, true) || Shaped(ms, early, false))
    && (forall i :: Serves(g, i, s) ==> Shaped(ms, early, g.slots[i].phase.Authorized?))
  }

  ghost predicate DownOk(g: State, arrived: seq<Arrived>) {
    forall s: nat :: SessionDown(g, arrived, s)
  }

  // A session that nothing was sent to and that is as authorised as it was.
  lemma {:induction false} SameDown(
    g: State, r: State, arrived: seq<Arrived>, arrived': seq<Arrived>, s: nat)
    requires SessionDown(g, arrived, s) && (s < r.hist.sessions <==> s < g.hist.sessions)
    requires DownOf(r.hist.down, s) == DownOf(g.hist.down, s) && EarlyOf(arrived', s) == EarlyOf(arrived, s)
    requires forall k :: Serves(r, k, s) ==>
               Serves(g, k, s) && (r.slots[k].phase.Authorized? <==> g.slots[k].phase.Authorized?)
    ensures SessionDown(r, arrived', s)
  {
  }

  // Everything a step of the gate keeps.
  ghost predicate Kept(cfg: Config, g: State, arrived: seq<Arrived>) {
    Inv(g) && TracesOk(cfg, g) && ToldOk(g) && DownOk(g, arrived)
  }

  // ---------------------------------------------------------------- messages of clients

  lemma {:induction false} MessageSays(cfg: Config, g: State, i: nat, msg: Bytes, now: int)
    requires Inv(g) && LiveAt(g, i)
    ensures var r, h := Message(cfg, g, i, msg, now), Handle(cfg, g.slots[i], msg, now);
            && r.hist.down == g.hist.down + Tagged(g.slots[i].session, h.sends)
            && r.hist.sessions == g.hist.sessions && g.hist.log <= r.hist.log
            && (LiveAt(r, i) <==> !h.action.Drop?) && (LiveAt(r, i) ==> r.slots[i] == h.c)
            && (forall k :: |g.hist.log| <= k < |r.hist.log| && Opens(r.hist.log[k]) ==>
                  r.hist.log[k].report.idx == i && r.hist.log[k].session == g.slots[i].session && LiveAt(r, i))
  {
    var h := Handle(cfg, g.slots[i], msg, now);
    var g1 := Send(g, i, h.sends);
    DownKeeps(g, g1.hist.down);
    PutKeeps(g1, i, h.c);
    var g2 := Put(g1, i, h.c);
    match h.action
    case Stay =>
    case Say(body) => TellLogs(g2, i, body);
    case Drop =>
      RemoveShape(g2, i, CLOSE_EXCEPTION);
      RemoveLogs(g2, i, CLOSE_EXCEPTION);
  }

  lemma {:induction false} MessageTold(cfg: Config, g: State, i: nat, msg: Bytes, now: int)
    requires Inv(g) && TracesOk(cfg, g) && ToldOk(g) && LiveAt(g, i)
    ensures ToldOk(Message(cfg, g, i, msg, now))
  {
    MessageSays(cfg, g, i, msg, now);
    MessageOnlyCloses(cfg, g, i, msg, now);
    ToldStays(cfg, g, Message(cfg, g, i, msg, now));
  }

  lemma {:induction false} SendsShaped(cfg: Config, c: Conn, msg: Bytes, now: int, ms: seq<Down>, early: seq<Down>)
    requires Live(c) && Shaped(ms, early, c.phase.Authorized?)
    ensures var h := Handle(cfg, c, msg, now); Shaped(ms + h.sends, early, h.c.phase.Authorized?)
  {
    var h := Handle(cfg, c, msg, now);
    assert (ms + h.sends)[..1 + |early|] == ms[..1 + |early|];
  }

  lemma {:induction false} MessageDown(
    cfg: Config, g: State, i: nat, msg: Bytes, now: int, arrived: seq<Arrived>, s: nat)
    requires Inv(g) && LiveAt(g, i) && SessionDown(g, arrived, s)
    ensures SessionDown(Message(cfg, g, i, msg, now), arrived, s)
  {
    var r, h, t := Message(cfg, g, i, msg, now), Handle(cfg, g.slots[i], msg, now), g.slots[i].session;
    MessageSays(cfg, g, i, msg, now);
    MessageOnlyCloses(cfg, g, i, msg, now);
    DownOfTagged(g.hist.down, t, h.sends, s);
    if s == t {
      assert Serves(g, i, s);
      SendsShaped(cfg, g.slots[i], msg, now, DownOf(g.hist.down, s), EarlyOf(arrived, s));
    } else {
      forall k | Serves(r, k, s)
        ensures Serves(g, k, s) && r.slots[k] == g.slots[k]
      {
        MessageElsewhere(cfg, g, i, msg, now, k);
      }
    }
  }

  lemma {:induction false} MessageKept(cfg: Config, g: State, i: nat, msg: Bytes, now: int, arrived: seq<Arrived>)
    requires Kept(cfg, g, arrived) && LiveAt(g, i)
    ensures Kept(cfg, Message(cfg, g, i, msg, now), arrived)
    ensures g.hist.log <= Message(cfg, g, i, msg, now).hist.log && g.hist.down <= Message(cfg, g, i, msg, now).hist.down
  {
    MessageSays(cfg, g, i, msg, now);
    MessageKeeps(cfg, g, i, msg, now);
    MessageKeepsTraces(cfg, g, i, msg, now);
    MessageTold(cfg, g, i, msg, now);
    forall s: nat
      ensures SessionDown(Message(cfg, g, i, msg, now), arrived, s)
    {
      MessageDown(cfg, g, i, msg, now, arrived, s);
    }
  }

  lemma {:induction false} FedKept(cfg: Config, g: State, i: nat, d: Decoder, arrived: seq<Arrived>)
    requires Kept(cfg, g, arrived) && LiveAt(g, i) && Clean(d)
    ensures var r := Put(g, i, g.slots[i].(dec := d)); Kept(cfg, r, arrived) && LiveAt(r, i) && r.hist == g.hist
  {
    var r := Put(g, i, g.slots[i].(dec := d));
    PutKeeps(g, i, g.slots[i].(dec := d));
    QuietKeeps(cfg, g, r);
    ToldStays(cfg, g, r);
    forall s: nat
      ensures SessionDown(r, arrived, s)
    {
      assert SessionDown(g, arrived, s);
      SameDown(g, r, arrived, arrived, s);
    }
  }

  lemma {:induction false} ReceiveKept(cfg: Config, g: State, fd: int, chunk: Bytes, now: int, arrived: seq<Arrived>)
    requires Kept(cfg, g, arrived)
    ensures var r := Receive(cfg, g, fd, chunk, now).0;
            Kept(cfg, r, arrived) && g.hist.log <= r.hist.log && g.hist.down <= r.hist.down
    decreases |chunk|
  {
    var at := ByFd(g, fd);
    if at.Some? {
      var i := at.value;
      FeedFromClean(g.slots[i].dec, chunk);
      var fed := Feed(g.slots[i].dec, chunk);
      var g1 := Put(g, i, g.slots[i].(dec := fed.d));
      FedKept(cfg, g, i, fed.d, arrived);
      if fed.Complete? {
        var g2 := ReceiveOne(cfg, g, fd, i, chunk, fed, now);
        MessageKept(cfg, g1, i, fed.msg, now, arrived);
        if fed.rest != [] { ReceiveKept(cfg, g2, fd, fed.rest, now, arrived); }
      }
    }
  }

  // ---------------------------------------------------------------- the other steps

  lemma {:induction false} CalmKept(cfg: Config, g: State, st: Step, arrived: seq<Arrived>)
    requires Kept(cfg, g, arrived) && Enabled(cfg, g, st)
    requires !st.SReceive? && !st.SAgentData? && !Admits(cfg, g, st)
    ensures Kept(cfg, Apply(cfg, g, st), arrived)
  {
    var r := Apply(cfg, g, st);
    ApplyKeeps(cfg, g, st);
    ApplyKeepsTraces(cfg, g, st);
    StepCalm(cfg, g, st);
    forall i | LiveAt(r, i)
      ensures Serves(g, i, r.slots[i].session) && (r.slots[i].phase.Authorized? <==> g.slots[i].phase.Authorized?)
    {
      OldOrAdmitted(cfg, g, st, i);
      StepAside(cfg, g, st, i);
    }
    ToldStays(cfg, g, r);
    forall s: nat
      ensures SessionDown(r, arrived, s)
    {
      assert SessionDown(g, arrived, s);
      SameDown(g, r, arrived, arrived, s);
    }
  }

  lemma {:induction false} AdmitKept(cfg: Config, g: State, st: Step, arrived: seq<Arrived>)
    requires Kept(cfg, g, arrived) && Enabled(cfg, g, st) && Admits(cfg, g, st)
    ensures var r := Apply(cfg, g, st);
            Kept(cfg, r, arrived) && r.hist.log == g.hist.log && g.hist.down <= r.hist.down
  {
    var r := Apply(cfg, g, st);
    ApplyKeeps(cfg, g, st);
    ApplyKeepsTraces(cfg, g, st);
    AdmittedShape(cfg, g, st.fd, st.created, st.sent, st.now);
    ToldStays(cfg, g, r);
    AdmitAsks(cfg, g, st);
    forall s: nat
      ensures SessionDown(r, arrived, s)
    {
      AskedDown(g, r, NextIdx(Counted(g, st.fd)).value, arrived, s);
    }
  }

  lemma {:induction false} AdmitAsks(cfg: Config, g: State, st: Step)
    requires Enabled(cfg, g, st) && Admits(cfg, g, st)
    ensures Apply(cfg, g, st).hist.down == g.hist.down + Tagged(g.hist.sessions, [NeedAuth])
  {
  }

  lemma {:induction false} AskedDown(g: State, r: State, i: nat, arrived: seq<Arrived>, s: nat)
    requires SessionDown(g, arrived, s) && SessionsOk(g) && Began(g, r, i)
    requires r.hist.down == g.hist.down + Tagged(g.hist.sessions, [NeedAuth])
    ensures SessionDown(r, arrived, s)
  {
    DownOfTagged(g.hist.down, g.hist.sessions, [NeedAuth], s);
    if s == g.hist.sessions {
      assert [] + [NeedAuth] == [NeedAuth];
      AskedShaped();
      assert forall k :: Serves(r, k, s) ==> k == i;
    } else {
      assert forall k :: Serves(r, k, s) ==> Serves(g, k, s);
      SameDown(g, r, arrived, arrived, s);
    }
  }

  lemma {:induction false} AskedShaped()
    ensures Shaped([NeedAuth], [], false)
  {
    assert [NeedAuth][..1] == [NeedAuth] + [];
  }

  // ---------------------------------------------------------------- arrivals

  /** The session that has the slot, if one has, gets the frame; nothing else changes but that it was active. */
  lemma {:induction false} FrameGoesToTheSlot(g: State, idx: int, bytes: Bytes, now: int)
    ensures var r := AgentData(g, idx, bytes, now);
            && r.hist.log == g.hist.log && r.hist.sessions == g.hist.sessions
            && r.hist.down == g.hist.down + (match ReachedBy(g, idx)
                                             case None => []
                                             case Some(t) => [Sent(t, Payload(bytes))])
            && (forall i :: LiveAt(r, i) <==> LiveAt(g, i))
            && (forall i :: LiveAt(g, i) ==> r.slots[i] == g.slots[i].(lastAct := r.slots[i].lastAct))
  {
    if ByIdx(g, idx).Some? {
      assert Tagged(g.slots[idx].session, [Payload(bytes)]) == [Sent(g.slots[idx].session, Payload(bytes))];
    } else {
      assert g.hist.down + [] == g.hist.down;
    }
  }

  lemma {:induction false} FrameShaped(ms: seq<Down>, early: seq<Down>, authorised: bool, bytes: Bytes)
    requires Shaped(ms, early, authorised)
    ensures Shaped(ms + [Payload(bytes)], if authorised then early else early + [Payload(bytes)], authorised)
  {
    var n := 1 + |early|;
    assert (ms + [Payload(bytes)])[..n] == ms[..n];
    if !authorised {
      assert (ms + [Payload(bytes)])[..n + 1] == ([NeedAuth] + early) + [Payload(bytes)];
      assert ([NeedAuth] + early) + [Payload(bytes)] == [NeedAuth] + (early + [Payload(bytes)]);
    }
  }

  lemma {:induction false} FrameDown(g: State, l: Letter, now: int, arrived: seq<Arrived>, s: nat)
    requires Inv(g) && SessionDown(g, arrived, s) && l.content.Deliver?
    ensures SessionDown(AgentData(g, l.idx, l.content.bytes, now),
                        arrived + [Arrived(l, ReachedBy(g, l.idx), PhaseAt(g, l.idx))], s)
  {
    var a, bytes := Arrived(l, ReachedBy(g, l.idx), PhaseAt(g, l.idx)), l.content.bytes;
    var r := AgentData(g, l.idx, bytes, now);
    FrameGoesToTheSlot(g, l.idx, bytes, now);
    EarlyOfAppend(arrived, a, s);
    assert forall k :: Serves(r, k, s) <==> Serves(g, k, s);
    if a.reached.Some? { DownOfAppend(g.hist.down, Sent(a.reached.value, Payload(bytes)), s); }
    if a.reached == Some(s) {
      assert Serves(g, l.idx, s);
      FrameDownHere(g, r, l.idx, arrived, arrived + [a], bytes, s);
    } else {
      assert EarlyOf(arrived, s) + [] == EarlyOf(arrived, s) && g.hist.down + [] == g.hist.down;
      SameDown(g, r, arrived, arrived + [a], s);
    }
  }

  lemma {:induction false} FrameDownHere(
    g: State, r: State, i: nat, arrived: seq<Arrived>, arrived': seq<Arrived>, bytes: Bytes, s: nat)
    requires SessionsOk(g) && SessionDown(g, arrived, s) && Serves(g, i, s) && r.hist.sessions == g.hist.sessions
    requires DownOf(r.hist.down, s) == DownOf(g.hist.down, s) + [Payload(bytes)]
    requires EarlyOf(arrived', s)
             == EarlyOf(arrived, s) + if g.slots[i].phase.Authorized? then [] else [Payload(bytes)]
    requires forall k :: Serves(r, k, s) ==> Serves(g, k, s) && r.slots[k].phase == g.slots[k].phase
    ensures SessionDown(r, arrived', s)
  {
    assert EarlyOf(arrived, s) + [] == EarlyOf(arrived, s);
    FrameShaped(DownOf(g.hist.down, s), EarlyOf(arrived, s), g.slots[i].phase.Authorized?, bytes);
  }

  lemma {:induction false} FrameKept(cfg: Config, g: State, l: Letter, now: int, arrived: seq<Arrived>)
    requires Kept(cfg, g, arrived) && l.content.Deliver?
    ensures Kept(cfg, AgentData(g, l.idx, l.content.bytes, now),
                 arrived + [Arrived(l, ReachedBy(g, l.idx), PhaseAt(g, l.idx))])
  {
    var r := AgentData(g, l.idx, l.content.bytes, now);
    AgentDataKeeps(g, l.idx, l.content.bytes, now);
    AgentDataKeepsTraces(cfg, g, l.idx, l.content.bytes, now);
    FrameGoesToTheSlot(g, l.idx, l.content.bytes, now);
    ToldStays(cfg, g, r);
    forall s: nat
      ensures SessionDown(r, arrived + [Arrived(l, ReachedBy(g, l.idx), PhaseAt(g, l.idx))], s)
    {
      FrameDown(g, l, now, arrived, s);
    }
  }

  lemma {:induction false} KickKept(cfg: Config, g: State, l: Letter, arrived: seq<Arrived>)
    requires Kept(cfg, g, arrived) && l.content.Kick?
    ensures Kept(cfg, AgentClose(g, l.idx, l.content.reason),
                 arrived + [Arrived(l, ReachedBy(g, l.idx), PhaseAt(g, l.idx))])
  {
    var a := Arrived(l, ReachedBy(g, l.idx), PhaseAt(g, l.idx));
    var r := AgentClose(g, l.idx, l.content.reason);
    CalmKept(cfg, g, SAgentClose(l.idx, l.content.reason), arrived);
    forall s: nat
      ensures SessionDown(r, arrived + [a], s)
    {
      EarlyOfAppend(arrived, a, s);
      assert SessionDown(r, arrived, s);
    }
  }

  // ---------------------------------------------------------------- runs

  // With a waiting agent, a letter reaches the session it is for, authorised, or a later one.
  predicate Addressed(a: Arrived) {
    a.reached.Some? ==>
      a.letter.to <= a.reached.value && (a.letter.to == a.reached.value ==> a.phase.Authorized?)
  }

  ghost predicate WorldOk(cfg: Config, waits: bool, w: World) {
    && Kept(cfg, w.g, w.arrived)
    && (waits ==> forall k :: 0 <= k < |w.mail| ==> Told(w.g, w.mail[k].to, w.mail[k].idx))
    && (waits ==> forall k :: 0 <= k < |w.arrived| ==> Addressed(w.arrived[k]))
  }

  lemma {:induction false} StillTold(g: State, r: State, s: nat, idx: int)
    requires g.hist.log <= r.hist.log && Told(g, s, idx)
    ensures Told(r, s, idx)
  {
    var k :| 0 <= k < |g.hist.log| && Opens(g.hist.log[k]) && g.hist.log[k].session == s
             && g.hist.log[k].report.idx == idx;
    assert r.hist.log[k] == g.hist.log[k];
  }

  /** Whom a letter reaches: its session, authorised, if that goes on; else the later one in its slot, or nobody. */
  ghost predicate Finds(g: State, l: Letter) {
    var reached := ReachedBy(g, l.idx);
    && (reached == Some(l.to) <==> LiveSession(g, l.to))
    && (reached == Some(l.to) ==> PhaseAt(g, l.idx).Authorized?)
    && (reached.Some? ==> Serves(g, l.idx, reached.value) && l.to <= reached.value)
    && (reached == None <==> !LiveAt(g, l.idx))
  }

  /** What a letter does: a frame is sent down to the session reached, a kick ends it; no other session notices. */
  ghost predicate Outcome(g: State, r: State, l: Letter, s: nat) {
    var here := ReachedBy(g, l.idx) == Some(s);
    && DownOf(r.hist.down, s)
       == DownOf(g.hist.down, s) + (if l.content.Deliver? && here then [Payload(l.content.bytes)] else [])
    && (LiveSession(r, s) <==> LiveSession(g, s) && !(l.content.Kick? && here))
  }

  lemma {:induction false} TellsApart(cfg: Config, g: State, s: nat, idx: int)
    requires Inv(g) && TracesOk(cfg, g) && ToldOk(g) && Told(g, s, idx)
    ensures forall content :: Finds(g, Letter(s, idx, content))
  {
    ToldIsServed(cfg, g, s, idx);
    var k :| 0 <= k < |g.hist.log| && Opens(g.hist.log[k]) && g.hist.log[k].session == s
             && g.hist.log[k].report.idx == idx;
    assert NotEarlier(g, g.hist.log[k]);
    if LiveSession(g, s) {
      var i :| Serves(g, i, s);
      assert i == idx;
    }
    if ReachedBy(g, idx) == Some(s) { assert Serves(g, idx, s); }
  }

  lemma {:induction false} GateMoveKept(cfg: Config, g: State, st: Step, arrived: seq<Arrived>)
    requires Kept(cfg, g, arrived) && Enabled(cfg, g, st) && !st.SAgentData?
    ensures var r := Apply(cfg, g, st);
            Kept(cfg, r, arrived) && g.hist.log <= r.hist.log && g.hist.down <= r.hist.down
  {
    if st.SReceive? {
      ReceiveKept(cfg, g, st.fd, st.chunk, st.now, arrived);
    } else if Admits(cfg, g, st) {
      AdmitKept(cfg, g, st, arrived);
    } else {
      CalmKept(cfg, g, st, arrived);
      StepCalm(cfg, g, st);
    }
  }

  lemma {:induction false} ArrivalKept(cfg: Config, g: State, l: Letter, now: int, arrived: seq<Arrived>)
    requires Kept(cfg, g, arrived)
    ensures var r := Apply(cfg, g, StepFor(l, now));
            && Kept(cfg, r, arrived + [Arrived(l, ReachedBy(g, l.idx), PhaseAt(g, l.idx))])
            && g.hist.log <= r.hist.log && g.hist.down <= r.hist.down
  {
    if l.content.Deliver? {
      FrameKept(cfg, g, l, now, arrived);
      FrameGoesToTheSlot(g, l.idx, l.content.bytes, now);
    } else {
      KickKept(cfg, g, l, arrived);
      StepCalm(cfg, g, StepFor(l, now));
    }
  }

  lemma {:induction false} MoveKeeps(cfg: Config, waits: bool, w: World, m: Move)
    requires WorldOk(cfg, waits, w) && MoveEnabled(cfg, waits, w, m)
    ensures var r := MoveOn(cfg, w, m);
            WorldOk(cfg, waits, r) && w.g.hist.log <= r.g.hist.log && w.g.hist.down <= r.g.hist.down
  {
    var r := MoveOn(cfg, w, m);
    match m {
      case MGate(st) => GateMoveKept(cfg, w.g, st, w.arrived);
      case MPost(l) =>
      case MArrive(k, now) =>
        ArrivalKept(cfg, w.g, w.mail[k], now, w.arrived);
        if waits {
          TellsApart(cfg, w.g, w.mail[k].to, w.mail[k].idx);
          assert Finds(w.g, Letter(w.mail[k].to, w.mail[k].idx, w.mail[k].content));
        }
    }
    forall k | waits && 0 <= k < |r.mail|
      ensures Told(r.g, r.mail[k].to, r.mail[k].idx)
    {
      if Told(w.g, r.mail[k].to, r.mail[k].idx) { StillTold(w.g, r.g, r.mail[k].to, r.mail[k].idx); }
    }
  }

  lemma {:induction false} MovesKeep(cfg: Config, waits: bool, w: World, ms: seq<Move>)
    requires WorldOk(cfg, waits, w) && CanMove(cfg, waits, w, ms)
    ensures WorldOk(cfg, waits, Moved(cfg, waits, w, ms))
    decreases |ms|
  {
    if ms != [] {
      MoveKeeps(cfg, waits, w, ms[0]);
      MovesKeep(cfg, waits, MoveOn(cfg, w, ms[0]), ms[1..]);
    }
  }

  lemma {:induction false} NewWorldOk(cfg: Config, waits: bool, max: nat, ms: int)
    ensures WorldOk(cfg, waits, NewWorld(max, ms))
  {
    InitialInv(max, ms);
  }

  /**
    In every run of gate and agent, for every letter under way from an agent that waits for
    CONNECTED: it reaches the session it is for if and only if that session still goes on, and then
    finds it authorised.  Otherwise it reaches the later session that has taken the slot, or nobody
    if none has.  A frame goes down to the client of the session reached and to no other; a kick
    ends the session reached and no other.
   */
  lemma {:induction false} LetterReachesExactlyWhen(
    cfg: Config, max: nat, ms: int, moves: seq<Move>, k: nat, now: int, s: nat)
    requires CanMove(cfg, true, NewWorld(max, ms), moves) && k < |Moved(cfg, true, NewWorld(max, ms), moves).mail|
    ensures var w := Moved(cfg, true, NewWorld(max, ms), moves);
            Finds(w.g, w.mail[k]) && Outcome(w.g, MoveOn(cfg, w, MArrive(k, now)).g, w.mail[k], s)
  {
    NewWorldOk(cfg, true, max, ms);
    MovesKeep(cfg, true, NewWorld(max, ms), moves);
    var w := Moved(cfg, true, NewWorld(max, ms), moves);
    var l := w.mail[k];
    TellsApart(cfg, w.g, l.to, l.idx);
    assert l == Letter(l.to, l.idx, l.content);
    ArrivalOutcome(cfg, w.g, l, now, s);
  }

  lemma {:induction false} ArrivalOutcome(cfg: Config, g: State, l: Letter, now: int, s: nat)
    requires Inv(g)
    ensures Outcome(g, Apply(cfg, g, StepFor(l, now)), l, s)
  {
    assert DownOf(g.hist.down, s) + [] == DownOf(g.hist.down, s);
    if l.content.Deliver? {
      FrameOutcome(g, l, now, s);
    } else {
      StepCalm(cfg, g, StepFor(l, now));
      KickEnds(g, l.idx, l.content.reason, s);
    }
  }

  lemma {:induction false} FrameOutcome(g: State, l: Letter, now: int, s: nat)
    requires l.content.Deliver?
    ensures Outcome(g, AgentData(g, l.idx, l.content.bytes, now), l, s)
  {
    var r, to := AgentData(g, l.idx, l.content.bytes, now), ReachedBy(g, l.idx);
    FrameGoesToTheSlot(g, l.idx, l.content.bytes, now);
    assert g.hist.down + [] == g.hist.down && DownOf(g.hist.down, s) + [] == DownOf(g.hist.down, s);
    if to.Some? { DownOfAppend(g.hist.down, Sent(to.value, Payload(l.content.bytes)), s); }
    assert forall i :: Serves(r, i, s) <==> Serves(g, i, s);
  }

  lemma {:induction false} KickEnds(g: State, idx: int, reason: int, s: nat)
    requires Inv(g)
    ensures LiveSession(AgentClose(g, idx, reason), s) <==> LiveSession(g, s) && ReachedBy(g, idx) != Some(s)
  {
    var r := AgentClose(g, idx, reason);
    if ByIdx(g, idx).Some? {
      RemoveShape(g, idx, reason);
      assert forall i :: Serves(r, i, s) <==> Serves(g, i, s) && i != idx;
      assert ReachedBy(g, idx) == Some(s) <==> Serves(g, idx, s);
    }
  }

  // ---------------------------------------------------------------- a slot that changes hands

  // Slot 1 of a table of three serves session s of this socket, and no other slot is live.
  ghost predicate OnlyOne(g: State, s: nat, fd: int, phase: Phase) {
    && |g.slots| == 3 && Serves(g, 1, s) && g.slots[1].fd == fd && g.slots[1].phase == phase
    && !LiveAt(g, 2) && g.hist.sessions == s + 1 && g.alive == 1 && g.closing == 0 && fd in g.hist.open
  }

  ghost predicate NoOne(g: State, s: nat) {
    |g.slots| == 3 && !LiveAt(g, 1) && !LiveAt(g, 2) && g.hist.sessions == s && g.alive == 0 && g.closing == 0
  }

  lemma {:induction false} TakesTheSlot(cfg: Config, g: State, s: nat, fd: int)
    requires Inv(g) && NoOne(g, s)
    ensures var st := SAccept(fd, true, true, 0);
            && Enabled(cfg, g, st) && Inv(Apply(cfg, g, st)) && OnlyOne(Apply(cfg, g, st), s, fd, Connected)
            && Apply(cfg, g, st).slots[1].dec.msgLen == 0 && Apply(cfg, g, st).hist.log == g.hist.log
            && Apply(cfg, g, st).hist.down == g.hist.down + [Sent(s, NeedAuth)]
  {
    var st := SAccept(fd, true, true, 0);
    assert NextIdx(Counted(g, fd)) == Some(1);
    assert !LiveAt(g, 0);
    assert Admits(cfg, g, st);
    ApplyKeeps(cfg, g, st);
    AdmittedShape(cfg, g, fd, true, true, 0);
    AdmitAsks(cfg, g, st);
    assert Tagged(s, [NeedAuth]) == [Sent(s, NeedAuth)];
  }

  lemma {:induction false} OpensTheSession(cfg: Config, g: State, s: nat, fd: int, auth: Bytes)
    requires Inv(g) && OnlyOne(g, s, fd, Connected) && g.slots[1].dec.msgLen == 0 && 0 < |auth| <= MAX_FRAME
    requires cfg.parse(auth).Some? && cfg.parse(auth).value.area in cfg.areas && !cfg.needAuth
    ensures var st := SReceive(fd, Frame(auth), 0);
            && Enabled(cfg, g, st) && Inv(Apply(cfg, g, st)) && OnlyOne(Apply(cfg, g, st), s, fd, Authorized)
            && Told(Apply(cfg, g, st), s, 1)
            && Apply(cfg, g, st).hist.down == g.hist.down + [Sent(s, AuthRsp(0))]
  {
    var st := SReceive(fd, Frame(auth), 0);
    ApplyKeeps(cfg, g, st);
    var d := g.slots[1].dec;
    PrefixRoundTrip(|auth|);
    FeedFromClean(d, Frame(auth));
    var fed := Feed(d, Frame(auth));
    assert fed.Complete? && fed.msg == auth && fed.rest == [];
    assert ByFd(g, fd) == Some(1);
    var g1 := Put(g, 1, g.slots[1].(dec := fed.d));
    PutKeeps(g, 1, g.slots[1].(dec := fed.d));
    var r := ReceiveOne(cfg, g, fd, 1, Frame(auth), fed, 0);
    AuthMessage(cfg, g1, s, auth);
    MessageOnlyCloses(cfg, g1, 1, auth, 0);
  }

  lemma {:induction false} AuthMessage(cfg: Config, g: State, s: nat, auth: Bytes)
    requires Inv(g) && Serves(g, 1, s) && g.slots[1].phase == Connected
    requires cfg.parse(auth).Some? && cfg.parse(auth).value.area in cfg.areas && !cfg.needAuth
    ensures var r := Message(cfg, g, 1, auth, 0);
            && Serves(r, 1, s) && r.slots[1].phase == Authorized && r.slots[1].fd == g.slots[1].fd
            && |r.slots| == |g.slots| && r.alive == g.alive && r.closing == g.closing
            && r.hist.open == g.hist.open && r.hist.sessions == g.hist.sessions
            && r.hist.down == g.hist.down + [Sent(s, AuthRsp(0))] && Told(r, s, 1)
  {
    MessageSays(cfg, g, 1, auth, 0);
    var h := Handle(cfg, g.slots[1], auth, 0);
    assert Tagged(s, [AuthRsp(0)]) == [Sent(s, AuthRsp(0))];
    var g1 := Put(Send(g, 1, h.sends), 1, h.c);
    DownKeeps(g, Send(g, 1, h.sends).hist.down);
    PutKeeps(Send(g, 1, h.sends), 1, h.c);
    TellLogs(g1, 1, Opened);
    var r := Message(cfg, g, 1, auth, 0);
    assert Opens(r.hist.log[|g.hist.log|]);
  }

  lemma {:induction false} LeavesTheSlot(cfg: Config, g: State, s: nat, fd: int)
    requires Inv(g) && OnlyOne(g, s, fd, Authorized)
    ensures Enabled(cfg, g, SPeerClose(fd))
    ensures var r := Apply(cfg, g, SPeerClose(fd));
            Inv(r) && NoOne(r, s + 1) && r.hist.down == g.hist.down && g.hist.log <= r.hist.log
  {
    ApplyKeeps(cfg, g, SPeerClose(fd));
    PeerCalm(g, fd);
    assert ByFd(Uncounted(g, fd), fd) == Some(1);
    RemoveShape(Uncounted(g, fd), 1, CLOSE_BY_CLIENT);
  }

  // The moves are possible and lead from w to r.
  ghost predicate Leads(cfg: Config, waits: bool, w: World, ms: seq<Move>, r: World) {
    CanMove(cfg, waits, w, ms) && Moved(cfg, waits, w, ms) == r
  }

  lemma {:induction false} LeadsOn(cfg: Config, waits: bool, w: World, ms: seq<Move>, r: World, m: Move)
    requires Leads(cfg, waits, w, ms, r) && MoveEnabled(cfg, waits, r, m)
    ensures Leads(cfg, waits, w, ms + [m], MoveOn(cfg, r, m))
    decreases |ms|
  {
    if ms == [] {
      assert [] + [m] == [m] && [m][1..] == [];
    } else {
      assert (ms + [m])[1..] == ms[1..] + [m];
      LeadsOn(cfg, waits, MoveOn(cfg, w, ms[0]), ms[1..], r, m);
    }
  }

  lemma {:induction false} Enters(cfg: Config, waits: bool, w0: World, ms: seq<Move>, w: World, s: nat, fd: int)
    returns (r: World)
    requires WorldOk(cfg, waits, w0) && Leads(cfg, waits, w0, ms, w) && NoOne(w.g, s)
    ensures Leads(cfg, waits, w0, ms + [MGate(SAccept(fd, true, true, 0))], r)
    ensures OnlyOne(r.g, s, fd, Connected) && r.g.slots[1].dec.msgLen == 0 && r.mail == w.mail && r.arrived == w.arrived
    ensures r.g.hist.down == w.g.hist.down + [Sent(s, NeedAuth)]
  {
    MovesKeep(cfg, waits, w0, ms);
    TakesTheSlot(cfg, w.g, s, fd);
    r := MoveOn(cfg, w, MGate(SAccept(fd, true, true, 0)));
    LeadsOn(cfg, waits, w0, ms, w, MGate(SAccept(fd, true, true, 0)));
  }

  lemma {:induction false} Authorises(cfg: Config, w0: World, ms: seq<Move>, w: World, s: nat, fd: int, auth: Bytes)
    returns (r: World)
    requires WorldOk(cfg, true, w0) && Leads(cfg, true, w0, ms, w) && OnlyOne(w.g, s, fd, Connected)
    requires w.g.slots[1].dec.msgLen == 0 && 0 < |auth| <= MAX_FRAME
    requires cfg.parse(auth).Some? && cfg.parse(auth).value.area in cfg.areas && !cfg.needAuth
    ensures Leads(cfg, true, w0, ms + [MGate(SReceive(fd, Frame(auth), 0))], r)
    ensures OnlyOne(r.g, s, fd, Authorized) && Told(r.g, s, 1) && r.mail == w.mail && r.arrived == w.arrived
    ensures r.g.hist.down == w.g.hist.down + [Sent(s, AuthRsp(0))]
  {
    MovesKeep(cfg, true, w0, ms);
    OpensTheSession(cfg, w.g, s, fd, auth);
    r := MoveOn(cfg, w, MGate(SReceive(fd, Frame(auth), 0)));
    LeadsOn(cfg, true, w0, ms, w, MGate(SReceive(fd, Frame(auth), 0)));
  }

  lemma {:induction false} Posts(cfg: Config, waits: bool, w0: World, ms: seq<Move>, w: World, l: Letter)
    returns (r: World)
    requires Leads(cfg, waits, w0, ms, w) && (waits ==> Told(w.g, l.to, l.idx)) && w.mail == []
    ensures Leads(cfg, waits, w0, ms + [MPost(l)], r) && r == w.(mail := [l])
  {
    r := MoveOn(cfg, w, MPost(l));
    LeadsOn(cfg, waits, w0, ms, w, MPost(l));
  }

  lemma {:induction false} Leaves(cfg: Config, w0: World, ms: seq<Move>, w: World, s: nat, fd: int) returns (r: World)
    requires WorldOk(cfg, true, w0) && Leads(cfg, true, w0, ms, w) && OnlyOne(w.g, s, fd, Authorized)
    ensures Leads(cfg, true, w0, ms + [MGate(SPeerClose(fd))], r)
    ensures NoOne(r.g, s + 1) && r.mail == w.mail && r.arrived == w.arrived && r.g.hist.down == w.g.hist.down
  {
    MovesKeep(cfg, true, w0, ms);
    LeavesTheSlot(cfg, w.g, s, fd);
    r := MoveOn(cfg, w, MGate(SPeerClose(fd)));
    LeadsOn(cfg, true, w0, ms, w, MGate(SPeerClose(fd)));
  }

  lemma {:induction false} Reaches(
    cfg: Config, waits: bool, w0: World, ms: seq<Move>, w: World, l: Letter, s: nat, fd: int)
    returns (r: World)
    requires WorldOk(cfg, waits, w0) && Leads(cfg, waits, w0, ms, w) && OnlyOne(w.g, s, fd, Connected)
    requires w.mail == [l] && l.idx == 1
    ensures Leads(cfg, waits, w0, ms + [MArrive(0, 0)], r) && r.arrived == w.arrived + [Arrived(l, Some(s), Connected)]
    ensures DownOf(r.g.hist.down, s)
            == DownOf(w.g.hist.down, s) + if l.content.Deliver? then [Payload(l.content.bytes)] else []
    ensures l.content.Kick? ==> !LiveSession(r.g, s)
  {
    MovesKeep(cfg, waits, w0, ms);
    r := MoveOn(cfg, w, MArrive(0, 0));
    ArrivalOutcome(cfg, w.g, l, 0, s);
    LeadsOn(cfg, waits, w0, ms, w, MArrive(0, 0));
  }

  // Session 0 opens, the agent posts a letter for it, session 0 ends and session 1 takes its slot, the letter arrives.
  function ReuseRun(auth: Bytes, content: Content): (r: seq<Move>)
    requires |auth| <= MAX_FRAME
  {
    [] + [MGate(SAccept(5, true, true, 0))] + [MGate(SReceive(5, Frame(auth), 0))] + [MPost(Letter(0, 1, content))]
    + [MGate(SPeerClose(5))] + [MGate(SAccept(6, true, true, 0))] + [MArrive(0, 0)]
  }

  lemma {:induction false} ReuseLeads(cfg: Config, w0: World, auth: Bytes, content: Content) returns (r: World)
    requires WorldOk(cfg, true, w0) && NoOne(w0.g, 0) && w0.mail == [] && w0.g.hist.down == []
    requires 0 < |auth| <= MAX_FRAME
    requires cfg.parse(auth).Some? && cfg.parse(auth).value.area in cfg.areas && !cfg.needAuth
    ensures Leads(cfg, true, w0, ReuseRun(auth, content), r)
    ensures r.arrived == w0.arrived + [Arrived(Letter(0, 1, content), Some(1), Connected)]
    ensures DownOf(r.g.hist.down, 1) == [NeedAuth] + if content.Deliver? then [Payload(content.bytes)] else []
    ensures content.Kick? ==> !LiveSession(r.g, 1)
  {
    var ms: seq<Move> := [];
    var l := Letter(0, 1, content);
    var w := Enters(cfg, true, w0, ms, w0, 0, 5);
    ms := ms + [MGate(SAccept(5, true, true, 0))];
    w := Authorises(cfg, w0, ms, w, 0, 5, auth);
    ms := ms + [MGate(SReceive(5, Frame(auth), 0))];
    w := Posts(cfg, true, w0, ms, w, l);
    ms := ms + [MPost(l)];
    w := Leaves(cfg, w0, ms, w, 0, 5);
    ms := ms + [MGate(SPeerClose(5))];
    w := Enters(cfg, true, w0, ms, w, 1, 6);
    ms := ms + [MGate(SAccept(6, true, true, 0))];
    r := Reaches(cfg, true, w0, ms, w, l, 1, 6);
    DownToTheSecond();
  }

  /**
    The agent waits, and its letter still reaches the wrong session: what it posted for session 0
    arrives at session 1, which has the slot by then and is not authorised.
   */
  lemma {:induction false} LetterReachesTheNextSession(cfg: Config, auth: Bytes, content: Content)
    requires 0 < |auth| <= MAX_FRAME
    requires cfg.parse(auth).Some? && cfg.parse(auth).value.area in cfg.areas && !cfg.needAuth
    ensures CanMove(cfg, true, NewWorld(3, 0), ReuseRun(auth, content))
    ensures var w := Moved(cfg, true, NewWorld(3, 0), ReuseRun(auth, content));
            && w.arrived == [Arrived(Letter(0, 1, content), Some(1), Connected)]
            && DownOf(w.g.hist.down, 1) == [NeedAuth] + (if content.Deliver? then [Payload(content.bytes)] else [])
            && (content.Kick? ==> !LiveSession(w.g, 1))
  {
    NewWorldOk(cfg, true, 3, 0);
    var r := ReuseLeads(cfg, NewWorld(3, 0), auth, content);
  }

  lemma {:induction false} DownToTheSecond()
    ensures DownOf([] + [Sent(0, NeedAuth)] + [Sent(0, AuthRsp(0))] + [Sent(1, NeedAuth)], 1) == [NeedAuth]
  {
    DownOfAppend([], Sent(0, NeedAuth), 1);
    DownOfAppend([] + [Sent(0, NeedAuth)], Sent(0, AuthRsp(0)), 1);
    DownOfAppend([] + [Sent(0, NeedAuth)] + [Sent(0, AuthRsp(0))], Sent(1, NeedAuth), 1);
  }
}
