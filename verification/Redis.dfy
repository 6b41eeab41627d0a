/**
  The callback pool of datacenter/RedisAgent.cpp: commands put a callback into the pool under a
  fresh id, replies and timeouts take it out and run the listener, and the listener may issue
  further commands while its own entry is still in the pool.

  `Agent` is the state, with the callback data issued and the callbacks completed as history; `RedisAgent` is the
  object.  What the listener does is a script: `script[k]` are the commands it issues in its
  k-th call of the step.  Ids are those of a sequence that has not wrapped at 2^32; the cursor,
  which moves on its own, wraps.
 */
module Redis {
  import opened Ids

  const TIMEOUT_SECONDS := 5

  // `internal` marks the SELECT issued on connect, which the agent answers itself.
  datatype Callback = Callback(cb: int, time: int, internal: bool)

  datatype Done = Done(id: nat, timedOut: bool)

  // History: `issued` is the callback data of every command and `marks` where the cursor was then;
  // `given` is the callback data of every completion in `done`.
  datatype Agent = Agent(nextId: nat, pool: map<nat, Callback>, cursor: nat, done: seq<Done>,
                         issued: seq<int>, marks: seq<nat>, given: seq<int>)

  // A command of the listener: its callback data, and whether redisvAsyncCommand accepts it.
  datatype Cmd = Cmd(cb: int, accepted: bool)

  /** The constructor. */
  function Start(): (a: Agent) {
    Agent(1, map[], 5, [], [], [], [])
  }

  // ---------------------------------------------------------------- transitions

  /** Command. */
  function Issue(a: Agent, c: Cmd, internal: bool, now: int): (r: Agent) {
    if !c.accepted then a
    else a.(pool := a.pool[a.nextId := Callback(c.cb, now, internal)], nextId := a.nextId + 1,
            issued := a.issued + [c.cb], marks := a.marks + [a.cursor])
  }

  function IssueAll(a: Agent, cs: seq<Cmd>, now: int): (r: Agent)
    decreases |cs|
  {
    if cs == [] then a else IssueAll(Issue(a, cs[0], false, now), cs[1..], now)
  }

  function Handing(a: Agent, id: nat, timedOut: bool): (r: Agent)
    requires id in a.pool
  {
    a.(done := a.done + [Done(id, timedOut)], given := a.given + [a.pool[id].cb])
  }

  /** The listener runs, then the entry is erased. */
  function Complete(a: Agent, id: nat, timedOut: bool, cs: seq<Cmd>, now: int): (r: Agent)
    requires id in a.pool
  {
    var a1 := IssueAll(Handing(a, id, timedOut), cs, now);
    a1.(pool := a1.pool - {id})
  }

  /** OnCommand; an id that is not in the pool is ignored. */
  function Answer(a: Agent, id: nat, cs: seq<Cmd>, now: int): (r: Agent) {
    if id !in a.pool then a
    else Complete(a, id, false, if a.pool[id].internal then [] else cs, now)
  }

  predicate Overdue(pool: map<nat, Callback>, id: nat, now: int) {
    id in pool && pool[id].time + TIMEOUT_SECONDS < now
  }

  function First(script: seq<seq<Cmd>>): (r: seq<Cmd>) {
    if script == [] then [] else script[0]
  }

  function Later(script: seq<seq<Cmd>>): (r: seq<seq<Cmd>>) {
    if script == [] then [] else script[1..]
  }

  /** ++m_chkTimeOut on a uint32_t. */
  function Moved(a: Agent): (r: Agent) {
    a.(cursor := IdAfter(a.cursor, 1))
  }

  /** Both loops of CheckTimeOut; only the second stops at the id counter. */
  function Scan(a: Agent, n: int, capped: bool, script: seq<seq<Cmd>>, now: int): (r: Agent)
    decreases n
  {
    if n <= 0 || (capped && a.nextId < a.cursor) then a
    else if a.cursor !in a.pool then Scan(Moved(a), n - 1, capped, script, now)
    else if Overdue(a.pool, a.cursor, now) then
      Scan(Expire(a, First(script), now), n - 1, capped, Later(script), now)
    else a
  }

  /** Times the entry under the cursor out and moves on. */
  function Expire(a: Agent, cs: seq<Cmd>, now: int): (r: Agent)
    requires a.cursor in a.pool
  {
    Moved(Complete(a, a.cursor, true, cs, now))
  }

  /** CheckTimeOut. */
  function Check(a: Agent, n: int, script: seq<seq<Cmd>>, now: int): (r: Agent) {
    if a.nextId < a.cursor then Scan(a, n, false, script, now)
    else
      var a1 := Scan(a, n, true, script, now);
      if a1.nextId < a1.cursor then a1.(cursor := a1.nextId) else a1
  }

  datatype Step =
    | SCommand(c: Cmd, internal: bool, now: int)
    | SReply(id: nat, cs: seq<Cmd>, now: int)
    | SCheck(n: int, script: seq<seq<Cmd>>, now: int)

  function Apply(a: Agent, s: Step): (r: Agent) {
    match s
    case SCommand(c, internal, now) => Issue(a, c, internal, now)
    case SReply(id, cs, now) => Answer(a, id, cs, now)
    case SCheck(n, script, now) => Check(a, n, script, now)
  }

  function Run(a: Agent, steps: seq<Step>): (r: Agent)
    decreases |steps|
  {
    if steps == [] then a else Run(Apply(a, steps[0]), steps[1..])
  }

  ghost predicate IdsBelow(a: Agent) {
    forall id :: id in a.pool ==> id < a.nextId
  }

  // ---------------------------------------------------------------- conservation

  ghost predicate IsDone(a: Agent, id: nat) {
    exists k :: 0 <= k < |a.done| && a.done[k].id == id
  }

  ghost predicate DoneOnce(a: Agent) {
    forall i, j :: 0 <= i < j < |a.done| ==> a.done[i].id != a.done[j].id
  }

  /** Every id handed out is pending or completed, never both, and completed once. */
  ghost predicate Conserved(a: Agent) {
    && 1 <= a.nextId && DoneOnce(a)
    && (forall id :: id in a.pool ==> 1 <= id < a.nextId && !IsDone(a, id))
    && (forall id: nat :: IsDone(a, id) ==> 1 <= id < a.nextId)
    && (forall id: nat :: 1 <= id < a.nextId ==> id in a.pool || IsDone(a, id))
  }

  // The entry `busy` is being completed: it is in the list of completions and still in the pool.
  ghost predicate ConservedWhile(a: Agent, busy: nat) {
    busy in a.pool && IsDone(a, busy) && Conserved(a.(pool := a.pool - {busy}))
  }

  lemma {:induction false} IssueKeeps(a: Agent, c: Cmd, internal: bool, now: int)
    requires Conserved(a)
    ensures Conserved(Issue(a, c, internal, now))
  {
    var r := Issue(a, c, internal, now);
    assert forall id :: IsDone(r, id) <==> IsDone(a, id);
  }

  lemma {:induction false} IssueAllKeepsBusy(a: Agent, cs: seq<Cmd>, now: int, busy: nat)
    requires ConservedWhile(a, busy)
    ensures ConservedWhile(IssueAll(a, cs, now), busy)
    decreases |cs|
  {
    if cs != [] {
      var r := Issue(a, cs[0], false, now);
      IssueKeeps(a.(pool := a.pool - {busy}), cs[0], false, now);
      assert IsDone(a.(pool := a.pool - {busy}), busy);
      assert r.pool - {busy} == Issue(a.(pool := a.pool - {busy}), cs[0], false, now).pool;
      assert forall id :: IsDone(r, id) <==> IsDone(a, id);
      IssueAllKeepsBusy(r, cs[1..], now, busy);
    }
  }

  lemma {:induction false} CompleteKeeps(a: Agent, id: nat, timedOut: bool, cs: seq<Cmd>, now: int)
    requires Conserved(a) && id in a.pool
    ensures Conserved(Complete(a, id, timedOut, cs, now))
  {
    var a1 := Handing(a, id, timedOut);
    assert a1.done[|a.done|].id == id;
    var a2 := a1.(pool := a1.pool - {id});
    forall j: nat
      ensures IsDone(a2, j) <==> IsDone(a, j) || j == id
    {
      if IsDone(a, j) {
        var k :| 0 <= k < |a.done| && a.done[k].id == j;
        assert a2.done[k].id == j;
      }
      if j == id { assert a2.done[|a.done|].id == j; }
    }
    assert DoneOnce(a2) by {
      forall i, j | 0 <= i < j < |a2.done|
        ensures a2.done[i].id != a2.done[j].id
      {
        if j == |a.done| { assert IsDone(a, a.done[i].id); }
      }
    }
    IssueAllKeepsBusy(a1, cs, now, id);
  }

  lemma {:induction false} ScanKeeps(a: Agent, n: int, capped: bool, script: seq<seq<Cmd>>, now: int)
    requires Conserved(a)
    ensures Conserved(Scan(a, n, capped, script, now))
    decreases n
  {
    if n <= 0 || (capped && a.nextId < a.cursor) {
    } else if a.cursor !in a.pool {
      MoveKeeps(a, Moved(a).cursor);
      ScanKeeps(Moved(a), n - 1, capped, script, now);
    } else if Overdue(a.pool, a.cursor, now) {
      ExpireKeeps(a, First(script), now);
      ScanKeeps(Expire(a, First(script), now), n - 1, capped, Later(script), now);
    }
  }

  lemma {:induction false} ExpireKeeps(a: Agent, cs: seq<Cmd>, now: int)
    requires Conserved(a) && a.cursor in a.pool
    ensures Conserved(Expire(a, cs, now))
  {
    CompleteKeeps(a, a.cursor, true, cs, now);
    var r := Complete(a, a.cursor, true, cs, now);
    MoveKeeps(r, Moved(r).cursor);
  }

  lemma {:induction false} MoveKeeps(a: Agent, cursor: nat)
    requires Conserved(a)
    ensures Conserved(a.(cursor := cursor))
  {
    var r := a.(cursor := cursor);
    assert forall id :: IsDone(r, id) <==> IsDone(a, id);
  }

  lemma {:induction false} ApplyKeeps(a: Agent, s: Step)
    requires Conserved(a)
    ensures Conserved(Apply(a, s))
  {
    match s
    case SCommand(c, internal, now) => IssueKeeps(a, c, internal, now);
    case SReply(id, cs, now) =>
      if id in a.pool { CompleteKeeps(a, id, false, if a.pool[id].internal then [] else cs, now); }
    case SCheck(n, script, now) =>
      var capped := a.cursor <= a.nextId;
      ScanKeeps(a, n, capped, script, now);
      var a1 := Scan(a, n, capped, script, now);
      MoveKeeps(a1, a1.nextId);
  }

  lemma {:induction false} RunKeeps(a: Agent, steps: seq<Step>)
    requires Conserved(a)
    ensures Conserved(Run(a, steps))
    decreases |steps|
  {
    if steps != [] {
      ApplyKeeps(a, steps[0]);
      RunKeeps(Apply(a, steps[0]), steps[1..]);
    }
  }

  function DoneIds(done: seq<Done>): (r: set<nat>)
    decreases |done|
  {
    if done == [] then {} else DoneIds(done[..|done| - 1]) + {done[|done| - 1].id}
  }

  lemma {:induction false} DoneIdsCount(done: seq<Done>)
    requires forall i, j :: 0 <= i < j < |done| ==> done[i].id != done[j].id
    ensures |DoneIds(done)| == |done|
    ensures forall id :: id in DoneIds(done) <==> exists k :: 0 <= k < |done| && done[k].id == id
    decreases |done|
  {
    if done != [] {
      var init := done[..|done| - 1];
      DoneIdsCount(init);
      assert forall k :: 0 <= k < |init| ==> init[k] == done[k];
    }
  }

  lemma {:induction false} IdsBetween(s: set<nat>, n: nat)
    requires forall id: nat :: id in s <==> 1 <= id <= n
    ensures |s| == n
    decreases n
  {
    if n == 0 {
      assert s == {};
    } else {
      IdsBetween(s - {n}, n - 1);
      assert s == (s - {n}) + {n};
    }
  }

  /**
    In every run, with any replies, late or unasked for, any timeouts and any commands from
    inside the listener: a callback completes at most once, and the callbacks issued are exactly
    those completed and those pending.
   */
  lemma {:induction false} CallbacksAreConserved(steps: seq<Step>)
    ensures var a := Run(Start(), steps);
            && DoneOnce(a)
            && (forall id: nat :: 1 <= id < a.nextId <==> id in a.pool || IsDone(a, id))
            && (forall id :: !(id in a.pool && IsDone(a, id)))
            && a.nextId - 1 == |a.done| + |a.pool|
  {
    var start := Start();
    assert forall id :: !IsDone(start, id);
    RunKeeps(start, steps);
    var a := Run(start, steps);
    DoneIdsCount(a.done);
    var all := a.pool.Keys + DoneIds(a.done);
    assert forall id :: id in DoneIds(a.done) <==> IsDone(a, id);
    IdsBetween(all, a.nextId - 1);
    assert a.pool.Keys !! DoneIds(a.done);
    assert |all| == |a.pool.Keys| + |DoneIds(a.done)|;
  }

  // Every pending and every completed id stands for the callback data of its own command.
  ghost predicate OwnData(a: Agent) {
    && a.nextId == |a.issued| + 1 && |a.given| == |a.done|
    && (forall id :: id in a.pool ==> 1 <= id < a.nextId && a.pool[id].cb == a.issued[id - 1])
    && (forall k :: 0 <= k < |a.done| ==> 1 <= a.done[k].id < a.nextId && a.given[k] == a.issued[a.done[k].id - 1])
  }

  lemma {:induction false} IssueAllKeepsData(a: Agent, cs: seq<Cmd>, now: int)
    requires OwnData(a)
    ensures OwnData(IssueAll(a, cs, now))
    decreases |cs|
  {
    if cs != [] { IssueAllKeepsData(Issue(a, cs[0], false, now), cs[1..], now); }
  }

  lemma {:induction false} CompleteKeepsData(a: Agent, id: nat, timedOut: bool, cs: seq<Cmd>, now: int)
    requires OwnData(a) && id in a.pool
    ensures OwnData(Complete(a, id, timedOut, cs, now))
  {
    IssueAllKeepsData(Handing(a, id, timedOut), cs, now);
  }

  lemma {:induction false} ScanKeepsData(a: Agent, n: int, capped: bool, script: seq<seq<Cmd>>, now: int)
    requires OwnData(a)
    ensures OwnData(Scan(a, n, capped, script, now))
    decreases n
  {
    if n <= 0 || (capped && a.nextId < a.cursor) {
    } else if a.cursor !in a.pool {
      ScanKeepsData(Moved(a), n - 1, capped, script, now);
    } else if Overdue(a.pool, a.cursor, now) {
      CompleteKeepsData(a, a.cursor, true, First(script), now);
      ScanKeepsData(Expire(a, First(script), now), n - 1, capped, Later(script), now);
    }
  }

  lemma {:induction false} RunKeepsData(a: Agent, steps: seq<Step>)
    requires OwnData(a)
    ensures OwnData(Run(a, steps))
    decreases |steps|
  {
    if steps != [] {
      match steps[0] {
        case SCommand(c, internal, now) =>
        case SReply(id, cs, now) =>
          if id in a.pool { CompleteKeepsData(a, id, false, if a.pool[id].internal then [] else cs, now); }
        case SCheck(n, script, now) => ScanKeepsData(a, n, a.cursor <= a.nextId, script, now);
      }
      RunKeepsData(Apply(a, steps[0]), steps[1..]);
    }
  }

  /** In every run, the listener is handed back exactly the callback data its own command was issued with. */
  lemma {:induction false} ListenerGetsItsOwnData(steps: seq<Step>, k: nat)
    requires k < |Run(Start(), steps).done|
    ensures var a := Run(Start(), steps);
            && |a.given| == |a.done| && 1 <= a.done[k].id <= |a.issued|
            && a.given[k] == a.issued[a.done[k].id - 1]
  {
    RunKeepsData(Start(), steps);
  }

  // ---------------------------------------------------------------- the object

  function Count(script: seq<seq<Cmd>>): (n: nat)
    decreases |script|
  {
    if script == [] then 0 else |script[0]| + Count(script[1..])
  }

  class RedisAgent {
    var nextId: nat               // m_dwCallBackSeq
    var pool: map<nat, Callback>  // m_mpCallBackPool
    var cursor: nat               // m_chkTimeOut
    ghost var done: seq<Done>
    ghost var issued: seq<int>
    ghost var marks: seq<nat>
    ghost var given: seq<int>

    ghost function View(): Agent
      reads this
    {
      Agent(nextId, pool, cursor, done, issued, marks, given)
    }

    // `more` further commands fit the id space.
    ghost predicate Ready(more: nat)
      reads this
    {
      IdsBelow(View()) && nextId + more + 1 < ID_SPACE
    }

    constructor ()
      ensures View() == Start() && IdsBelow(View())
    {
      nextId, pool, cursor, done, issued, marks, given := 1, map[], 5, [], [], [], [];
    }

    /** The id is never one that is in the pool, also after the counter has wrapped. */
    method Command(c: Cmd, internal: bool, now: int) returns (ret: int)
      requires nextId < ID_SPACE && |pool| < ID_SPACE
      modifies this
      ensures exists id :: FirstFree(old(pool).Keys, old(nextId), id)
                           && nextId == (if c.accepted then IdAfter(id, 1) else id)
                           && pool == if c.accepted then old(pool)[id := Callback(c.cb, now, internal)] else old(pool)
      ensures ret == if c.accepted then 0 else -1
      ensures old(Ready(0)) ==> View() == Issue(old(View()), c, internal, now)
      ensures cursor == old(cursor) && done == old(done) && given == old(given)
    {
      nextId := SkipUsed(pool.Keys, nextId);
      ghost var id := nextId;
      if !c.accepted { return -1; }
      pool := pool[nextId := Callback(c.cb, now, internal)];
      issued, marks := issued + [c.cb], marks + [cursor];
      nextId := IdAfter(nextId, 1);
      ret := 0;
      assert FirstFree(old(pool).Keys, old(nextId), id);
    }

    /** The commands a listener issues. */
    method RunListener(cs: seq<Cmd>, now: int)
      requires Ready(|cs|)
      modifies this
      ensures View() == IssueAll(old(View()), cs, now)
      ensures Ready(0) && nextId <= old(nextId) + |cs| && cursor == old(cursor)
    {
      for i := 0 to |cs|
        invariant IssueAll(old(View()), cs, now) == IssueAll(View(), cs[i..], now)
        invariant Ready(|cs| - i) && nextId <= old(nextId) + i && cursor == old(cursor)
      {
        assert cs[i..][0] == cs[i] && cs[i..][1..] == cs[i + 1..];
        BelowBound(pool.Keys, nextId);
        var _ := Command(cs[i], false, now);
      }
    }

    method OnCommand(id: nat, cs: seq<Cmd>, now: int)
      requires Ready(|cs|)
      modifies this
      ensures View() == Answer(old(View()), id, cs, now)
      ensures Ready(0)
    {
      if id !in pool { return; }
      var internal := pool[id].internal;
      done, given := done + [Done(id, false)], given + [pool[id].cb];
      RunListener(if internal then [] else cs, now);
      pool := pool - {id};
    }

    method TimeOutHead(cs: seq<Cmd>, now: int)
      requires Ready(|cs|) && cursor in pool
      modifies this
      ensures View() == Expire(old(View()), cs, now)
      ensures Ready(0) && nextId <= old(nextId) + |cs|
    {
      done, given := done + [Done(cursor, true)], given + [pool[cursor].cb];
      RunListener(cs, now);
      pool := pool - {cursor};
      cursor := IdAfter(cursor, 1);
    }

    method CheckTimeOut(n: int, script: seq<seq<Cmd>>, now: int)
      requires Ready(Count(script))
      modifies this
      ensures View() == Check(old(View()), n, script, now)
    {
      var todo := script;
      var i := 0;
      var ahead := cursor > nextId;
      while i < n && (ahead || cursor <= nextId)
        invariant 0 <= i
        invariant Scan(old(View()), n, !ahead, script, now) == Scan(View(), n - i, !ahead, todo, now)
        invariant Ready(Count(todo))
      {
        if cursor !in pool {
          cursor := IdAfter(cursor, 1);
        } else if pool[cursor].time + TIMEOUT_SECONDS < now {
          TimeOutHead(First(todo), now);
          todo := Later(todo);
        } else {
          break;
        }
        i := i + 1;
      }
      if !ahead && cursor > nextId { cursor := nextId; }
    }
  }
}
