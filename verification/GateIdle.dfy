/**
  Whether a connection has its idle timer: over whole runs, a connection loses its timer exactly at
  a firing that finds it active and its last check less than a period back, and it never does while
  the gate's clock is in step with the timers'.
 */
module GateIdle {
  import opened Values
  import opened FrameDecoder
  import opened Timers
  import opened Gate
  import opened GateTable
  import opened GateSessions
  import opened GateStreams

  /** The timer that slot i notes is pending. */
  ghost predicate Armed(g: State, i: nat) {
    LiveAt(g, i) && g.slots[i].timerId in g.timers.events
  }

  // If slot i still serves its session, its timer and its last check are as they were.
  ghost predicate TimerAside(g: State, r: State, i: nat) {
    LiveAt(g, i) && Serves(r, i, g.slots[i].session) ==>
      && r.slots[i].timerId == g.slots[i].timerId && r.slots[i].lastCheck == g.slots[i].lastCheck
      && (Armed(r, i) <==> Armed(g, i))
      && (Armed(g, i) ==> r.timers.events[g.slots[i].timerId] == g.timers.events[g.slots[i].timerId])
  }

  lemma {:induction false} RemoveTimerAside(g: State, j: nat, reason: int, i: nat)
    requires SessionsOk(g) && TimersOk(g) && LiveAt(g, j)
    ensures TimerAside(g, Remove(g, j, reason), i)
  {
    RemoveShape(g, j, reason);
    if LiveAt(g, i) && i != j && g.slots[i].timerId in g.timers.events {
      assert ArmedFor(g, g.slots[i].timerId, g.slots[i].session);
      assert g.slots[j].timerId != g.slots[i].timerId;
    }
  }

  lemma {:induction false} MessageTimerAside(cfg: Config, g: State, j: nat, msg: Bytes, now: int, i: nat)
    requires Inv(g) && LiveAt(g, j)
    ensures TimerAside(g, Message(cfg, g, j, msg, now), i)
  {
    var h := Handle(cfg, g.slots[j], msg, now);
    PutKeeps(g, j, h.c);
    if h.action.Drop? { RemoveTimerAside(Put(g, j, h.c), j, CLOSE_EXCEPTION, i); }
  }

  lemma {:induction false} ReceiveTimerAside(cfg: Config, g: State, fd: int, chunk: Bytes, now: int, i: nat)
    requires Inv(g)
    ensures TimerAside(g, Receive(cfg, g, fd, chunk, now).0, i)
    decreases |chunk|
  {
    var at := ByFd(g, fd);
    if at.Some? {
      var j := at.value;
      FeedFromClean(g.slots[j].dec, chunk);
      var fed := Feed(g.slots[j].dec, chunk);
      var g1 := Put(g, j, g.slots[j].(dec := fed.d));
      PutKeeps(g, j, g.slots[j].(dec := fed.d));
      if fed.Complete? {
        var g2 := Message(cfg, g1, j, fed.msg, now);
        MessageKeeps(cfg, g1, j, fed.msg, now);
        MessageTimerAside(cfg, g1, j, fed.msg, now, i);
        if fed.rest != [] {
          ReceiveTimerAside(cfg, g2, fd, fed.rest, now, i);
          ReceiveOnlyCloses(cfg, g2, fd, fed.rest, now);
        }
      }
    }
  }

  lemma {:induction false} SweepTimerAside(g: State, reason: int, n: int, i: nat)
    requires Inv(g) && g.closing != 0
    ensures TimerAside(g, Sweep(g, reason, n), i)
    decreases n
  {
    if 0 < n && g.sweep < |g.slots| {
      var g1 := SweepOne(g, reason);
      SweepOneKeeps(g, reason);
      if ByIdx(g, g.sweep).Some? { RemoveTimerAside(g, g.sweep, reason, i); }
      SweepTimerAside(g1, reason, n - 1, i);
      SweepAside(g1, reason, n - 1, i);
    }
  }

  lemma {:induction false} CloseTimerAside(g: State, reason: int, n: int, i: nat)
    requires Inv(g) && reason != 0
    ensures TimerAside(g, Close(g, reason, n).0, i)
  {
    var g1 := if g.closing == 0 then g.(closing := reason) else g;
    AlikeKeeps(g, g1);
    SweepTimerAside(g1, reason, n, i);
  }

  lemma {:induction false} PeerCloseTimerAside(g: State, fd: int, i: nat)
    requires Inv(g)
    ensures TimerAside(g, PeerClose(g, fd), i)
  {
    var g1 := Uncounted(g, fd);
    AlikeKeeps(g, g1);
    var at := ByFd(g1, fd);
    if at.Some? { RemoveTimerAside(g1, at.value, CLOSE_BY_CLIENT, i); }
  }

  lemma {:induction false} AcceptTimerAside(
    cfg: Config, g: State, fd: int, created: bool, sent: bool, now: int, i: nat)
    requires Inv(g) && !Accept(cfg, g, fd, created, sent, now).Undefined?
    ensures TimerAside(g, Accept(cfg, g, fd, created, sent, now).g, i)
  {
  }

  /** The entry at `pos` of the expiry index is slot i's timer, and it is pending. */
  ghost predicate Fires(g: State, pos: nat, i: nat) {
    Armed(g, i) && pos < |g.timers.entries| && g.timers.entries[pos].id == g.slots[i].timerId
  }

  lemma {:induction false} FireTimerAside(cfg: Config, g: State, pos: nat, now: int, i: nat)
    requires Inv(g) && AtDue(Walk(g.timers, pos)) && LiveAt(g, i) && !Fires(g, pos, i)
    ensures TimerAside(g, FireAt(cfg, g, pos, now), i)
  {
    var id := g.timers.entries[pos].id;
    var g1 := g.(timers := Pop(Walk(g.timers, pos)).q);
    PopKeeps(g, pos);
    assert TimerAside(g, g1, i);
    if id in g.timers.events {
      var j := g.timers.events[id].code;
      assert Owned(g, id, j);
      CheckIdleTimerAside(cfg, g1, j, now, i);
    }
  }

  lemma {:induction false} CheckIdleTimerAside(cfg: Config, g: State, j: int, now: int, i: nat)
    requires Inv(g) && LiveAt(g, i) && i != j
    ensures TimerAside(g, CheckIdle(cfg, g, j, now), i)
  {
    if ByIdx(g, j).Some? && g.slots[j].lastAct + cfg.idle < now { RemoveTimerAside(g, j, CLOSE_BY_DEFAULT, i); }
  }

  lemma {:induction false} StepTimerAside(cfg: Config, g: State, st: Step, i: nat)
    requires Inv(g) && Enabled(cfg, g, st) && LiveAt(g, i) && !(st.SFire? && Fires(g, st.pos, i))
    ensures TimerAside(g, Apply(cfg, g, st), i)
  {
    match st
    case SAccept(fd, created, sent, now) => AcceptTimerAside(cfg, g, fd, created, sent, now, i);
    case SReceive(fd, chunk, now) => ReceiveTimerAside(cfg, g, fd, chunk, now, i);
    case SPeerClose(fd) => PeerCloseTimerAside(g, fd, i);
    case SAgentClose(idx, reason) => if ByIdx(g, idx).Some? { RemoveTimerAside(g, idx, reason, i); }
    case SAgentData(idx, bytes, now) =>
    case SFire(pos, now) => FireTimerAside(cfg, g, pos, now, i);
    case SClock(ms) =>
    case SClose(reason, n) => CloseTimerAside(g, reason, n, i);
  }

  // ---------------------------------------------------------------- how a timer is lost

  /** The step fires slot i's timer less than a period after its last check. */
  ghost predicate Lapses(cfg: Config, g: State, st: Step, i: nat) {
    st.SFire? && Fires(g, st.pos, i) && st.now < g.slots[i].lastCheck + cfg.idle
  }

  /** A step that leaves the session going on leaves it its timer, unless the timer lapses in it. */
  lemma {:induction false} StepAndTimer(cfg: Config, g: State, st: Step, i: nat)
    requires Inv(g) && Enabled(cfg, g, st) && LiveAt(g, i) && Serves(Apply(cfg, g, st), i, g.slots[i].session)
    ensures Armed(Apply(cfg, g, st), i) <==> Armed(g, i) && !Lapses(cfg, g, st, i)
  {
    if st.SFire? && Fires(g, st.pos, i) {
    } else {
      StepTimerAside(cfg, g, st, i);
    }
  }

  ghost predicate LapsesInRun(cfg: Config, g: State, steps: seq<Step>, i: nat)
    requires CanRun(cfg, g, steps)
    decreases |steps|
  {
    steps != [] && (Lapses(cfg, g, steps[0], i) || LapsesInRun(cfg, Apply(cfg, g, steps[0]), steps[1..], i))
  }

  /**
    In every run in which a session goes on to the end, a connection that has its idle timer still
    has it at the end if and only if the timer has not fired less than a period after a check; once
    it is lost, it is lost for good.
   */
  lemma {:induction false} TimerIsLostExactlyWhen(cfg: Config, g: State, steps: seq<Step>, i: nat)
    requires Inv(g) && LiveAt(g, i) && CanRun(cfg, g, steps) && Serves(Run(cfg, g, steps), i, g.slots[i].session)
    ensures Armed(Run(cfg, g, steps), i) <==> Armed(g, i) && !LapsesInRun(cfg, g, steps, i)
    decreases |steps|
  {
    if steps != [] {
      var g1 := Apply(cfg, g, steps[0]);
      ApplyKeeps(cfg, g, steps[0]);
      NoReturn(cfg, g, steps[0], i, g.slots[i].session);
      NoReturnInRun(cfg, g1, steps[1..], i, g.slots[i].session);
      StepAndTimer(cfg, g, steps[0], i);
      TimerIsLostExactlyWhen(cfg, g1, steps[1..], i);
    }
  }

  // ---------------------------------------------------------------- the timers' clock

  lemma {:induction false} ReceiveKeepsTime(cfg: Config, g: State, fd: int, chunk: Bytes, now: int)
    requires DecodersOk(g)
    ensures Receive(cfg, g, fd, chunk, now).0.timers.now == g.timers.now
    decreases |chunk|
  {
    var at := ByFd(g, fd);
    if at.Some? {
      var i := at.value;
      FeedFromClean(g.slots[i].dec, chunk);
      var fed := Feed(g.slots[i].dec, chunk);
      if fed.Complete? {
        var g2 := ReceiveOne(cfg, g, fd, i, chunk, fed, now);
        if fed.rest != [] { ReceiveKeepsTime(cfg, g2, fd, fed.rest, now); }
      }
    }
  }

  lemma {:induction false} SweepKeepsTime(g: State, reason: int, n: int)
    ensures Sweep(g, reason, n).timers.now == g.timers.now
    decreases n
  {
    if 0 < n && g.sweep < |g.slots| { SweepKeepsTime(SweepOne(g, reason), reason, n - 1); }
  }

  lemma {:induction false} StepKeepsTime(cfg: Config, g: State, st: Step)
    requires Enabled(cfg, g, st)
    ensures Apply(cfg, g, st).timers.now == if st.SClock? then st.ms else g.timers.now
  {
    match st
    case SReceive(fd, chunk, now) => ReceiveKeepsTime(cfg, g, fd, chunk, now);
    case SClose(reason, n) => SweepKeepsTime(if g.closing == 0 then g.(closing := reason) else g, reason, n);
    case _ =>
  }

  // ---------------------------------------------------------------- ticks

  /** The tick times after a step; the last one is the timers' clock. */
  function Ticked(ticks: seq<int>, st: Step): (r: seq<int>) {
    if st.SClock? then ticks + [st.ms] else ticks
  }

  function AllTicks(ticks: seq<int>, steps: seq<Step>): (r: seq<int>)
    decreases |steps|
  {
    if steps == [] then ticks else AllTicks(Ticked(ticks, steps[0]), steps[1..])
  }

  /**
    UpdateTick runs the expired timers before it hands the time on to the application: at a firing
    the application's clock, in seconds, shows the tick before.
   */
  ghost predicate InTickOrder(ticks: seq<int>, steps: seq<Step>)
    decreases |steps|
  {
    2 <= |ticks|
    && (steps == []
        || ((steps[0].SFire? ==> steps[0].now == ticks[|ticks| - 2] / 1000)
            && InTickOrder(Ticked(ticks, steps[0]), steps[1..])))
  }

  // Slot i's timer was armed at tick j, by a check that saw the tick before.
  ghost predicate CheckedAt(cfg: Config, g: State, ticks: seq<int>, i: nat, j: int) {
    && Armed(g, i) && 1 <= j < |ticks|
    && g.slots[i].lastCheck == ticks[j - 1] / 1000
    && g.timers.events[g.slots[i].timerId].at == ticks[j] + IdleMs(cfg)
  }

  // ... or by the accept, which leaves the time of the last check 0.
  ghost predicate Checked(cfg: Config, g: State, ticks: seq<int>, i: nat) {
    Armed(g, i) ==> g.slots[i].lastCheck == 0 || exists j :: CheckedAt(cfg, g, ticks, i, j)
  }

  ghost predicate AllChecked(cfg: Config, g: State, ticks: seq<int>) {
    2 <= |ticks| && g.timers.now == ticks[|ticks| - 1] && forall i: nat :: Checked(cfg, g, ticks, i)
  }

  lemma {:induction false} AsideChecked(cfg: Config, g: State, r: State, ticks: seq<int>, ticks': seq<int>, i: nat)
    requires Checked(cfg, g, ticks, i) && ticks <= ticks'
    requires LiveAt(g, i) && Serves(r, i, g.slots[i].session) && TimerAside(g, r, i)
    ensures Checked(cfg, r, ticks', i)
  {
    if Armed(r, i) && g.slots[i].lastCheck != 0 {
      var j :| CheckedAt(cfg, g, ticks, i, j);
      assert CheckedAt(cfg, r, ticks', i, j);
    }
  }

  lemma {:induction false} FiringChecks(cfg: Config, g: State, pos: nat, now: int, i: nat)
    requires Inv(g) && AtDue(Walk(g.timers, pos)) && Fires(g, pos, i)
    ensures var r := FireAt(cfg, g, pos, now);
            Armed(r, i) ==> r.slots[i].lastCheck == now
                            && r.timers.events[r.slots[i].timerId].at == g.timers.now + IdleMs(cfg)
  {
    IdleTimerDecides(cfg, g, pos, now);
  }

  lemma {:induction false} StepKeepsChecked(cfg: Config, g: State, st: Step, ticks: seq<int>, i: nat)
    requires Inv(g) && Enabled(cfg, g, st) && AllChecked(cfg, g, ticks)
    requires st.SFire? ==> st.now == ticks[|ticks| - 2] / 1000
    ensures Checked(cfg, Apply(cfg, g, st), Ticked(ticks, st), i)
  {
    var r := Apply(cfg, g, st);
    if LiveAt(r, i) {
      OldOrAdmitted(cfg, g, st, i);
      if !Serves(g, i, r.slots[i].session) {
      } else if st.SFire? && Fires(g, st.pos, i) {
        FiringChecks(cfg, g, st.pos, st.now, i);
        if Armed(r, i) { assert CheckedAt(cfg, r, ticks, i, |ticks| - 1); }
      } else {
        StepTimerAside(cfg, g, st, i);
        assert Checked(cfg, g, ticks, i);
        AsideChecked(cfg, g, r, ticks, Ticked(ticks, st), i);
      }
    }
  }

  lemma {:induction false} StepKeepsAllChecked(cfg: Config, g: State, st: Step, ticks: seq<int>)
    requires Inv(g) && Enabled(cfg, g, st) && AllChecked(cfg, g, ticks)
    requires st.SFire? ==> st.now == ticks[|ticks| - 2] / 1000
    ensures AllChecked(cfg, Apply(cfg, g, st), Ticked(ticks, st))
  {
    StepKeepsTime(cfg, g, st);
    forall i: nat
      ensures Checked(cfg, Apply(cfg, g, st), Ticked(ticks, st), i)
    {
      StepKeepsChecked(cfg, g, st, ticks, i);
    }
  }

  lemma {:induction false} RunKeepsChecked(cfg: Config, g: State, ticks: seq<int>, steps: seq<Step>)
    requires Inv(g) && AllChecked(cfg, g, ticks) && CanRun(cfg, g, steps) && InTickOrder(ticks, steps)
    ensures AllChecked(cfg, Run(cfg, g, steps), AllTicks(ticks, steps))
    decreases |steps|
  {
    if steps != [] {
      ApplyKeeps(cfg, g, steps[0]);
      StepKeepsAllChecked(cfg, g, steps[0], ticks);
      RunKeepsChecked(cfg, Apply(cfg, g, steps[0]), Ticked(ticks, steps[0]), steps[1..]);
    }
  }

  /**
    In every run whose ticks come in the source's order, the tick times alone decide: a timer that
    was armed by a check at tick j and fires now lapses if and only if the tick before now is, in
    whole seconds, less than a period after the tick before j; one armed by the accept, if and only
    if the tick before now is less than a period after time 0.
   */
  lemma {:induction false} TicksDecide(
    cfg: Config, max: nat, prev: int, ms: int, steps: seq<Step>, pos: nat, now: int, i: nat)
    requires CanRun(cfg, Initial(max, ms), steps) && InTickOrder([prev, ms], steps)
    requires var g, ticks := Run(cfg, Initial(max, ms), steps), AllTicks([prev, ms], steps);
             Fires(g, pos, i) && 2 <= |ticks| && now == ticks[|ticks| - 2] / 1000
    ensures var g, ticks := Run(cfg, Initial(max, ms), steps), AllTicks([prev, ms], steps);
            && (g.slots[i].lastCheck == 0 || exists j :: CheckedAt(cfg, g, ticks, i, j))
            && (g.slots[i].lastCheck == 0 ==> (Lapses(cfg, g, SFire(pos, now), i) <==> now < cfg.idle))
            && (forall j :: CheckedAt(cfg, g, ticks, i, j) ==>
                  (Lapses(cfg, g, SFire(pos, now), i) <==> now < ticks[j - 1] / 1000 + cfg.idle))
  {
    InitialInv(max, ms);
    RunKeepsChecked(cfg, Initial(max, ms), [prev, ms], steps);
    assert Checked(cfg, Run(cfg, Initial(max, ms), steps), AllTicks([prev, ms], steps), i);
  }

  /**
    Whenever a period has passed on the timers' clock from tick j to tick k, a period has passed in
    whole seconds between the ticks before them; and the clocks are a period past time 0.
   */
  ghost predicate Steady(cfg: Config, ticks: seq<int>) {
    && (forall k :: 0 <= k < |ticks| ==> cfg.idle <= ticks[k] / 1000)
    && (forall j, k :: 1 <= j <= k < |ticks| && ticks[j] + IdleMs(cfg) <= ticks[k] ==>
          ticks[j - 1] / 1000 + cfg.idle <= ticks[k - 1] / 1000)
  }

  ghost predicate AllArmed(g: State) {
    forall i: nat :: LiveAt(g, i) ==> Armed(g, i)
  }

  lemma {:induction false} SteadyDoesNotLapse(cfg: Config, g: State, st: Step, ticks: seq<int>, i: nat)
    requires TimersOk(g) && AllChecked(cfg, g, ticks) && Steady(cfg, ticks)
    requires st.SFire? && AtDue(Walk(g.timers, st.pos)) && Fires(g, st.pos, i) && st.now == ticks[|ticks| - 2] / 1000
    ensures !Lapses(cfg, g, st, i)
  {
    assert Checked(cfg, g, ticks, i);
    if g.slots[i].lastCheck != 0 {
      var j :| CheckedAt(cfg, g, ticks, i, j);
      var k :| 0 <= k < |g.timers.entries|
               && g.timers.entries[k] == Entry(g.timers.events[g.slots[i].timerId].at, g.slots[i].timerId);
      assert k == st.pos;
    }
  }

  lemma {:induction false} SteadyKeepsArmed(cfg: Config, g: State, st: Step, ticks: seq<int>, i: nat)
    requires Inv(g) && Enabled(cfg, g, st) && AllArmed(g) && AllChecked(cfg, g, ticks) && Steady(cfg, ticks)
    requires cfg.idle != 0 && LiveAt(Apply(cfg, g, st), i)
    requires st.SFire? ==> st.now == ticks[|ticks| - 2] / 1000
    ensures Armed(Apply(cfg, g, st), i)
  {
    OldOrAdmitted(cfg, g, st, i);
    if Serves(g, i, Apply(cfg, g, st).slots[i].session) {
      StepAndTimer(cfg, g, st, i);
      if st.SFire? && Fires(g, st.pos, i) { SteadyDoesNotLapse(cfg, g, st, ticks, i); }
    }
  }

  lemma {:induction false} SteadyKeepsAllArmed(cfg: Config, g: State, st: Step, ticks: seq<int>)
    requires Inv(g) && Enabled(cfg, g, st) && AllArmed(g) && AllChecked(cfg, g, ticks) && Steady(cfg, ticks)
    requires cfg.idle != 0 && (st.SFire? ==> st.now == ticks[|ticks| - 2] / 1000)
    ensures AllArmed(Apply(cfg, g, st))
  {
    forall i: nat | LiveAt(Apply(cfg, g, st), i)
      ensures Armed(Apply(cfg, g, st), i)
    {
      SteadyKeepsArmed(cfg, g, st, ticks, i);
    }
  }

  lemma {:induction false} TicksGrow(ticks: seq<int>, steps: seq<Step>)
    ensures ticks <= AllTicks(ticks, steps)
    decreases |steps|
  {
    if steps != [] { TicksGrow(Ticked(ticks, steps[0]), steps[1..]); }
  }

  lemma {:induction false} SteadyFromTheStart(cfg: Config, ticks: seq<int>, all: seq<int>)
    requires Steady(cfg, all) && ticks <= all
    ensures Steady(cfg, ticks)
  {
    assert forall k :: 0 <= k < |ticks| ==> ticks[k] == all[k];
  }

  lemma {:induction false} RunKeepsArmed(cfg: Config, g: State, ticks: seq<int>, steps: seq<Step>)
    requires Inv(g) && AllArmed(g) && AllChecked(cfg, g, ticks) && CanRun(cfg, g, steps) && InTickOrder(ticks, steps)
    requires cfg.idle != 0 && Steady(cfg, AllTicks(ticks, steps))
    ensures AllArmed(Run(cfg, g, steps))
    decreases |steps|
  {
    if steps != [] {
      var st := steps[0];
      TicksGrow(ticks, steps);
      SteadyFromTheStart(cfg, ticks, AllTicks(ticks, steps));
      ApplyKeeps(cfg, g, st);
      StepKeepsAllChecked(cfg, g, st, ticks);
      SteadyKeepsAllArmed(cfg, g, st, ticks);
      RunKeepsArmed(cfg, Apply(cfg, g, st), Ticked(ticks, st), steps[1..]);
    }
  }

  /**
    In every run of a gate with an idle period whose ticks come in the source's order and are
    steady, every live connection has its own timer pending.
   */
  lemma {:induction false} EveryConnectionHasItsTimer(
    cfg: Config, max: nat, prev: int, ms: int, steps: seq<Step>, i: nat)
    requires CanRun(cfg, Initial(max, ms), steps) && InTickOrder([prev, ms], steps)
    requires cfg.idle != 0 && Steady(cfg, AllTicks([prev, ms], steps))
    ensures var g := Run(cfg, Initial(max, ms), steps);
            LiveAt(g, i) ==> Armed(g, i) && g.timers.events[g.slots[i].timerId].code == i
  {
    InitialInv(max, ms);
    RunKeeps(cfg, Initial(max, ms), steps);
    RunKeepsArmed(cfg, Initial(max, ms), [prev, ms], steps);
    var g := Run(cfg, Initial(max, ms), steps);
    if LiveAt(g, i) {
      var id := g.slots[i].timerId;
      assert Armed(g, i) && Owned(g, id, g.timers.events[id].code) && ArmedFor(g, id, g.slots[i].session);
    }
  }

  /** Ticks whose gaps never grow are steady, if the period fits an int in milliseconds. */
  lemma {:induction false} EvenTicksAreSteady(cfg: Config, ticks: seq<int>)
    requires PeriodFits(cfg) && forall k :: 0 <= k < |ticks| ==> cfg.idle * 1000 <= ticks[k]
    requires forall j, k :: 1 <= j <= k < |ticks| ==> ticks[k] - ticks[k - 1] <= ticks[j] - ticks[j - 1]
    ensures Steady(cfg, ticks)
  {
    IdlePeriod(cfg);
    forall j, k | 1 <= j <= k < |ticks| && ticks[j] + IdleMs(cfg) <= ticks[k]
      ensures ticks[j - 1] / 1000 + cfg.idle <= ticks[k - 1] / 1000
    {
      assert ticks[k] - ticks[k - 1] <= ticks[j] - ticks[j - 1];
      assert ticks[j - 1] + cfg.idle * 1000 <= ticks[k - 1];
    }
  }

  // ---------------------------------------------------------------- a timer that lapses

  // Slot 1 of three has the only connection and the only timer.
  ghost predicate Alone(g: State, lastAct: int, lastCheck: int, id: nat, at: int, now: int) {
    && |g.slots| == 3 && LiveAt(g, 1) && g.slots[1].lastAct == lastAct && g.slots[1].lastCheck == lastCheck
    && g.slots[1].timerId == id && g.timers == TimerQueue([Entry(at, id)], map[id := TimerEvent(1, 0, at)], id + 1, now)
  }

  lemma {:induction false} AloneFires(
    cfg: Config, g: State, lastAct: int, lastCheck: int, id: nat, at: int, ms: int, now: int)
    requires Alone(g, lastAct, lastCheck, id, at, ms) && at <= ms && now <= lastAct + cfg.idle
    ensures Enabled(cfg, g, SFire(0, now))
    ensures var r := Apply(cfg, g, SFire(0, now));
            if lastCheck + cfg.idle <= now then Alone(r, lastAct, now, id + 1, ms + IdleMs(cfg), ms)
            else LiveAt(r, 1) && !Armed(r, 1)
  {
    var p := Pop(Walk(g.timers, 0)).q;
    assert p.entries == [] && p.events == map[];
    assert InsertAt([], 0, Entry(ms + IdleMs(cfg), id + 1)) == [Entry(ms + IdleMs(cfg), id + 1)];
  }

  lemma {:induction false} AloneHears(
    cfg: Config, g: State, bytes: Bytes, lastAct: int, lastCheck: int, id: nat, at: int, ms: int, now: int)
    requires Alone(g, lastAct, lastCheck, id, at, ms)
    ensures Enabled(cfg, g, SAgentData(1, bytes, now))
    ensures Alone(Apply(cfg, g, SAgentData(1, bytes, now)), now, lastCheck, id, at, ms)
  {
  }

  lemma {:induction false} AloneAccepted(cfg: Config, ms: int, now: int)
    requires cfg.idle != 0
    ensures Enabled(cfg, Initial(3, ms), SAccept(5, true, true, now))
    ensures Alone(Apply(cfg, Initial(3, ms), SAccept(5, true, true, now)), now, 0, 1, ms + IdleMs(cfg), ms)
  {
    assert NextIdx(Counted(Initial(3, ms), 5)) == Some(1);
    assert InsertAt([], 0, Entry(ms + IdleMs(cfg), 1)) == [Entry(ms + IdleMs(cfg), 1)];
  }

  // The steps are possible and lead from g to r.
  ghost predicate RunsTo(cfg: Config, g: State, steps: seq<Step>, r: State) {
    CanRun(cfg, g, steps) && Run(cfg, g, steps) == r
  }

  function LapsingRun(bytes: Bytes): (r: seq<Step>) {
    [] + [SAccept(5, true, true, 100)] + [SClock(110001)] + [SClock(110011)] + [SFire(0, 110)]
    + [SAgentData(1, bytes, 115)] + [SClock(119995)] + [SClock(120011)] + [SFire(0, 119)]
  }

  lemma {:induction false} RunsOn(cfg: Config, g0: State, run: seq<Step>, g: State, st: Step) returns (r: State)
    requires RunsTo(cfg, g0, run, g) && Enabled(cfg, g, st)
    ensures r == Apply(cfg, g, st) && RunsTo(cfg, g0, run + [st], r)
  {
    RunThenOne(cfg, g0, run, st);
    r := Apply(cfg, g, st);
  }

  lemma {:induction false} AloneTicks(
    cfg: Config, g0: State, run: seq<Step>, g: State, lastAct: int, lastCheck: int, id: nat, at: int, ms: int, to: int)
    returns (r: State)
    requires RunsTo(cfg, g0, run, g) && Alone(g, lastAct, lastCheck, id, at, ms)
    ensures RunsTo(cfg, g0, run + [SClock(to)], r) && Alone(r, lastAct, lastCheck, id, at, to)
  {
    r := RunsOn(cfg, g0, run, g, SClock(to));
  }

  lemma {:induction false} LapsingLeads(cfg: Config, g0: State, bytes: Bytes) returns (r: State)
    requires cfg.idle == 10 && g0 == Initial(3, 100005)
    ensures RunsTo(cfg, g0, LapsingRun(bytes), r) && LiveAt(r, 1) && !Armed(r, 1)
  {
    var run: seq<Step> := [];
    AloneAccepted(cfg, 100005, 100);
    r := RunsOn(cfg, g0, run, g0, SAccept(5, true, true, 100));
    run := run + [SAccept(5, true, true, 100)];
    r := AloneTicks(cfg, g0, run, r, 100, 0, 1, 110005, 100005, 110001);
    run := run + [SClock(110001)];
    r := AloneTicks(cfg, g0, run, r, 100, 0, 1, 110005, 110001, 110011);
    run := run + [SClock(110011)];
    AloneFires(cfg, r, 100, 0, 1, 110005, 110011, 110);
    r := RunsOn(cfg, g0, run, r, SFire(0, 110));
    run := run + [SFire(0, 110)];
    AloneHears(cfg, r, bytes, 100, 110, 2, 120011, 110011, 115);
    r := RunsOn(cfg, g0, run, r, SAgentData(1, bytes, 115));
    run := run + [SAgentData(1, bytes, 115)];
    r := AloneTicks(cfg, g0, run, r, 115, 110, 2, 120011, 110011, 119995);
    run := run + [SClock(119995)];
    r := AloneTicks(cfg, g0, run, r, 115, 110, 2, 120011, 119995, 120011);
    run := run + [SClock(120011)];
    AloneFires(cfg, r, 115, 110, 2, 120011, 120011, 119);
    r := RunsOn(cfg, g0, run, r, SFire(0, 119));
  }

  /**
    A run in tick order, with a period of 10 seconds, after which a live connection has no timer:
    the check at 110.011 s saw the clock at 110 s, and the next firing, ten seconds later, sees it
    at 119 s.
   */
  lemma {:induction false} TimerLapses(cfg: Config, bytes: Bytes)
    requires cfg.idle == 10
    ensures CanRun(cfg, Initial(3, 100005), LapsingRun(bytes)) && InTickOrder([100000, 100005], LapsingRun(bytes))
    ensures var g := Run(cfg, Initial(3, 100005), LapsingRun(bytes)); LiveAt(g, 1) && !Armed(g, 1)
  {
    var r := LapsingLeads(cfg, Initial(3, 100005), bytes);
    LapsingInOrder(bytes);
  }

  lemma {:induction false} LapsingInOrder(bytes: Bytes)
    ensures InTickOrder([100000, 100005], LapsingRun(bytes))
  {
    var run := LapsingRun(bytes);
    assert run[8..] == [];
    var t := [100000, 100005];
    var ticks := [t, t, t + [110001], t + [110001] + [110011], t + [110001] + [110011], t + [110001] + [110011],
                  t + [110001] + [110011] + [119995], t + [110001] + [110011] + [119995] + [120011],
                  t + [110001] + [110011] + [119995] + [120011]];
    var k := 8;
    while k != 0
      invariant 0 <= k <= 8 && InTickOrder(ticks[k], run[k..])
    {
      k := k - 1;
      assert run[k..][0] == run[k] && run[k..][1..] == run[k + 1..];
      assert Ticked(ticks[k], run[k]) == ticks[k + 1];
    }
    assert run[0..] == run;
  }
}
