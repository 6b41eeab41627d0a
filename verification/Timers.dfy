/**
  The timer manager of component/TimerMgr.cpp.

  The source keeps two indexes: a multimap from expiry time to timer id, walked in order by
  `Expired`, and a map from timer id to the event.  Cancelling erases only the second one, so
  the walk meets ids that are no longer pending.  Callbacks may add and cancel timers while
  the walk is in progress, and the walk has already moved its iterator when they run.

  `TimerQueue` is the value of both indexes, `TimerMgr` the object that updates them in place,
  and `Reference` the simple pending-timer map they are proved to implement.
 */
module Timers {
  import opened Ids
  import opened Values

  datatype TimerEvent = TimerEvent(code: int, param: int, at: int)

  // One element of the expiry multimap.
  datatype Entry = Entry(at: int, id: nat)

  datatype TimerQueue = TimerQueue(entries: seq<Entry>, events: map<nat, TimerEvent>, nextId: nat, now: int)

  // What a callback may do to the manager.
  datatype Op = Add(delay: int, code: int, param: int) | Cancel(id: nat)

  datatype Fired = Fired(id: nat, event: TimerEvent)

  // ---------------------------------------------------------------- the two indexes

  /** Where a multimap inserts a key: behind every element whose key is not greater. */
  function UpperBound(es: seq<Entry>, at: int): (p: nat)
    ensures p <= |es|
  {
    FirstAbove(es, at, 0)
  }

  function FirstAbove(es: seq<Entry>, at: int, i: nat): (p: nat)
    requires i <= |es|
    ensures i <= p <= |es|
    decreases |es| - i
  {
    if i == |es| || at < es[i].at then i else FirstAbove(es, at, i + 1)
  }

  function InsertAt(es: seq<Entry>, p: nat, e: Entry): (r: seq<Entry>)
    requires p <= |es|
    ensures |r| == |es| + 1
  {
    es[..p] + [e] + es[p..]
  }

  function RemoveAt(es: seq<Entry>, p: nat): (r: seq<Entry>)
    requires p < |es|
  {
    es[..p] + es[p + 1..]
  }

  predicate Before(a: Entry, b: Entry) {
    a.at < b.at || (a.at == b.at && a.id < b.id)
  }

  ghost predicate Ordered(es: seq<Entry>) {
    forall i, j :: 0 <= i < j < |es| ==> Before(es[i], es[j])
  }

  ghost predicate DistinctIds(es: seq<Entry>) {
    forall i, j :: 0 <= i < j < |es| ==> es[i].id != es[j].id
  }

  ghost predicate IdsBelow(es: seq<Entry>, n: nat) {
    forall i :: 0 <= i < |es| ==> es[i].id < n
  }

  // Every event has its place in the expiry index.
  ghost predicate Indexed(events: map<nat, TimerEvent>, es: seq<Entry>, n: nat) {
    forall id :: id in events ==> id < n && Entry(events[id].at, id) in es
  }

  /** The state of a manager that has handed out fewer than 2^32 ids. */
  ghost predicate Consistent(q: TimerQueue) {
    && Ordered(q.entries)
    && DistinctIds(q.entries)
    && IdsBelow(q.entries, q.nextId)
    && Indexed(q.events, q.entries, q.nextId)
  }

  /** AddTimer, as long as the id sequence has not wrapped. */
  function Arm(q: TimerQueue, delay: int, code: int, param: int): (r: TimerQueue) {
    var at := q.now + delay;
    q.(entries := InsertAt(q.entries, UpperBound(q.entries, at), Entry(at, q.nextId)),
       events := q.events[q.nextId := TimerEvent(code, param, at)],
       nextId := q.nextId + 1)
  }

  /** CancelTimer: the expiry index is left alone. */
  function Disarm(q: TimerQueue, id: nat): (r: TimerQueue) {
    q.(events := q.events - {id})
  }

  ghost predicate Splits(es: seq<Entry>, p: nat, at: int) {
    && p <= |es|
    && (forall i :: 0 <= i < p ==> es[i].at <= at)
    && (forall i :: p <= i < |es| ==> at < es[i].at)
  }

  lemma {:induction false} FirstAboveSplits(es: seq<Entry>, at: int, i: nat)
    requires Ordered(es) && i <= |es| && forall k :: 0 <= k < i ==> es[k].at <= at
    ensures Splits(es, FirstAbove(es, at, i), at)
    decreases |es| - i
  {
    if i < |es| && es[i].at <= at {
      FirstAboveSplits(es, at, i + 1);
    } else {
      assert forall k :: i < k < |es| ==> Before(es[i], es[k]);
    }
  }

  lemma {:induction false} InsertKeepsConsistent(q: TimerQueue, p: nat, te: TimerEvent)
    requires Consistent(q) && Splits(q.entries, p, te.at)
    ensures var es := InsertAt(q.entries, p, Entry(te.at, q.nextId));
            Consistent(TimerQueue(es, q.events[q.nextId := te], q.nextId + 1, q.now))
  {
    var e := Entry(te.at, q.nextId);
  }

  lemma {:induction false} ArmKeepsConsistent(q: TimerQueue, delay: int, code: int, param: int)
    requires Consistent(q)
    ensures Consistent(Arm(q, delay, code, param))
  {
    var te := TimerEvent(code, param, q.now + delay);
    var p := UpperBound(q.entries, te.at);
    FirstAboveSplits(q.entries, te.at, 0);
    InsertKeepsConsistent(q, p, te);
    assert Arm(q, delay, code, param)
        == TimerQueue(InsertAt(q.entries, p, Entry(te.at, q.nextId)), q.events[q.nextId := te], q.nextId + 1, q.now);
  }

  lemma {:induction false} RemoveKeepsConsistent(q: TimerQueue, p: nat)
    requires Consistent(q) && p < |q.entries|
    ensures Consistent(q.(entries := RemoveAt(q.entries, p), events := q.events - {q.entries[p].id}))
  {
    assert q.entries == q.entries[..p] + [q.entries[p]] + q.entries[p + 1..];
  }

  // ---------------------------------------------------------------- one pass of Expired

  // The walk: `pos` is the iterator, which a callback's insertion moves when it lands before it.
  datatype Walk = Walk(q: TimerQueue, pos: nat)

  predicate AtDue(w: Walk) {
    w.pos < |w.q.entries| && w.q.entries[w.pos].at <= w.q.now
  }

  function RunOp(w: Walk, op: Op): (r: Walk)
    ensures |r.q.entries| - r.pos <= |w.q.entries| - w.pos + 1
  {
    match op
    case Cancel(id) => w.(q := Disarm(w.q, id))
    case Add(delay, code, param) =>
      var p := UpperBound(w.q.entries, w.q.now + delay);
      Walk(Arm(w.q, delay, code, param), if p <= w.pos then w.pos + 1 else w.pos)
  }

  function RunOps(w: Walk, ops: seq<Op>): (r: Walk)
    decreases |ops|
  {
    if ops == [] then w else RunOps(RunOp(w, ops[0]), ops[1..])
  }

  /** Erases the element under the iterator from the expiry index, and its event if it still has one. */
  function Pop(w: Walk): (r: Walk)
    requires AtDue(w)
  {
    w.(q := w.q.(entries := RemoveAt(w.q.entries, w.pos),
                 events := w.q.events - {w.q.entries[w.pos].id}))
  }

  /**
    The loop of Expired.  `script[k]` is what the k-th callback of the pass does; a callback
    past the end of the script does nothing to the manager.  Every terminating pass has a script.
   */
  function Pass(w: Walk, script: seq<seq<Op>>): (r: (TimerQueue, seq<Fired>))
    decreases |script|, |w.q.entries| - w.pos
  {
    if !AtDue(w) then (w.q, [])
    else
      var id := w.q.entries[w.pos].id;
      if id !in w.q.events then Pass(Pop(w), script)
      else
        var rest := Pass(if script == [] then Pop(w) else RunOps(Pop(w), script[0]),
                         if script == [] then [] else script[1..]);
        (rest.0, [Fired(id, w.q.events[id])] + rest.1)
  }

  // ---------------------------------------------------------------- the simple form

  // A pending-timer map: no expiry index, no iterator, cancelling forgets the timer.
  datatype Reference = Reference(pending: map<nat, TimerEvent>, nextId: nat, now: int)

  function Pending(q: TimerQueue): (r: Reference) {
    Reference(q.events, q.nextId, q.now)
  }

  function RefOp(m: Reference, op: Op): (r: Reference) {
    match op
    case Cancel(id) => m.(pending := m.pending - {id})
    case Add(delay, code, param) =>
      m.(pending := m.pending[m.nextId := TimerEvent(code, param, m.now + delay)], nextId := m.nextId + 1)
  }

  function RefOps(m: Reference, ops: seq<Op>): (r: Reference)
    decreases |ops|
  {
    if ops == [] then m else RefOps(RefOp(m, ops[0]), ops[1..])
  }

  ghost predicate Due(m: Reference, id: nat) {
    id in m.pending && m.pending[id].at <= m.now
  }

  /** `id` is due, and no due timer expires earlier or was added earlier for the same time. */
  ghost predicate Next(m: Reference, id: nat) {
    && Due(m, id)
    && forall j :: Due(m, j) && j != id ==> Before(Entry(m.pending[id].at, id), Entry(m.pending[j].at, j))
  }

  /** Repeatedly: take the next due timer off the map and run its callback. */
  ghost function RefPass(m: Reference, script: seq<seq<Op>>): (r: (Reference, seq<Fired>))
    decreases |script|, |m.pending|
  {
    if !exists id :: Next(m, id) then (m, [])
    else
      var id :| Next(m, id);
      var m' := m.(pending := m.pending - {id});
      assert m.pending.Keys == m'.pending.Keys + {id};
      var rest := RefPass(if script == [] then m' else RefOps(m', script[0]),
                          if script == [] then [] else script[1..]);
      (rest.0, [Fired(id, m.pending[id])] + rest.1)
  }

  ghost predicate PositiveDelays(ops: seq<Op>) {
    forall i :: 0 <= i < |ops| && ops[i].Add? ==> 0 < ops[i].delay
  }

  ghost predicate PositiveScript(script: seq<seq<Op>>) {
    forall i :: 0 <= i < |script| ==> PositiveDelays(script[i])
  }

  // What holds of the walk as long as callbacks only add positive delays.
  ghost predicate WalkInv(w: Walk) {
    && Consistent(w.q)
    && NoneDueBefore(w.q.entries, w.pos, w.q.now)
  }

  ghost predicate NoneDueBefore(es: seq<Entry>, pos: nat, now: int) {
    pos <= |es| && forall i :: 0 <= i < pos ==> now < es[i].at
  }

  lemma {:induction false} RunOpKeepsWalk(w: Walk, op: Op)
    requires WalkInv(w) && (op.Add? ==> 0 < op.delay)
    ensures WalkInv(RunOp(w, op))
  {
    if op.Add? {
      var at := w.q.now + op.delay;
      var p := UpperBound(w.q.entries, at);
      ArmKeepsConsistent(w.q, op.delay, op.code, op.param);
      assert RunOp(w, op) == Walk(Arm(w.q, op.delay, op.code, op.param), if p <= w.pos then w.pos + 1 else w.pos);
    }
  }

  lemma {:induction false} RunOpSimulates(w: Walk, op: Op)
    ensures Pending(RunOp(w, op).q) == RefOp(Pending(w.q), op)
  {
  }

  lemma {:induction false} RunOpsSimulates(w: Walk, ops: seq<Op>)
    requires WalkInv(w) && PositiveDelays(ops)
    ensures WalkInv(RunOps(w, ops))
    ensures Pending(RunOps(w, ops).q) == RefOps(Pending(w.q), ops)
    decreases |ops|
  {
    if ops != [] {
      RunOpKeepsWalk(w, ops[0]);
      RunOpSimulates(w, ops[0]);
      RunOpsSimulates(RunOp(w, ops[0]), ops[1..]);
    }
  }

  lemma {:induction false} PopKeepsWalkInv(w: Walk)
    requires WalkInv(w) && AtDue(w)
    ensures WalkInv(Pop(w))
  {
    RemoveKeepsConsistent(w.q, w.pos);
  }

  /** The element under the iterator, when it still has its event, is the next due timer. */
  lemma {:induction false} HeadIsNext(w: Walk)
    requires WalkInv(w) && AtDue(w) && w.q.entries[w.pos].id in w.q.events
    ensures Next(Pending(w.q), w.q.entries[w.pos].id)
  {
    var m := Pending(w.q);
    var head := w.q.entries[w.pos];
    forall j | Due(m, j) && j != head.id
      ensures Before(head, Entry(m.pending[j].at, j))
    {
      var k :| 0 <= k < |w.q.entries| && w.q.entries[k] == Entry(m.pending[j].at, j);
      assert w.pos < k;
    }
  }

  lemma {:induction false} NothingDue(w: Walk)
    requires WalkInv(w) && !AtDue(w)
    ensures forall i :: 0 <= i < |w.q.entries| ==> w.q.now < w.q.entries[i].at
    ensures forall id :: !Due(Pending(w.q), id)
  {
    forall i | 0 <= i < |w.q.entries|
      ensures w.q.now < w.q.entries[i].at
    {
      if w.pos < i {
        assert Before(w.q.entries[w.pos], w.q.entries[i]);
      }
    }
    forall id | id in w.q.events
      ensures w.q.now < w.q.events[id].at
    {
      var k :| 0 <= k < |w.q.entries| && w.q.entries[k] == Entry(w.q.events[id].at, id);
    }
  }

  /**
    The two indexes with lazy cancellation and a moving iterator do what the pending map does:
    same timers fired, in the same order, and the same timers left.
   */
  lemma {:induction false} PassRefinesMap(w: Walk, script: seq<seq<Op>>)
    requires WalkInv(w) && PositiveScript(script)
    ensures Pass(w, script).1 == RefPass(Pending(w.q), script).1
    ensures Pending(Pass(w, script).0) == RefPass(Pending(w.q), script).0
    ensures Consistent(Pass(w, script).0)
    ensures forall i :: 0 <= i < |Pass(w, script).0.entries| ==> w.q.now < Pass(w, script).0.entries[i].at
    decreases |script|, |w.q.entries| - w.pos
  {
    if !AtDue(w) {
      NothingDue(w);
    } else {
      PopKeepsWalkInv(w);
      var id := w.q.entries[w.pos].id;
      if id !in w.q.events {
        assert Pop(w).q.events == w.q.events;
        PassRefinesMap(Pop(w), script);
      } else {
        HeadIsNext(w);
        var m := Pending(w.q);
        var n :| Next(m, n);
        if script == [] {
          PassRefinesMap(Pop(w), []);
        } else {
          RunOpsSimulates(Pop(w), script[0]);
          NowIsFixed(Pop(w), script[0]);
          PassRefinesMap(RunOps(Pop(w), script[0]), script[1..]);
        }
      }
    }
  }

  lemma {:induction false} NowIsFixed(w: Walk, ops: seq<Op>)
    ensures RunOps(w, ops).q.now == w.q.now
    decreases |ops|
  {
    if ops != [] { NowIsFixed(RunOp(w, ops[0]), ops[1..]); }
  }

  // ---------------------------------------------------------------- what a pass fires

  ghost predicate Fresh(m: Reference) {
    forall id :: id in m.pending ==> id < m.nextId
  }

  ghost predicate Cancels(ops: seq<Op>, id: nat) {
    Cancel(id) in ops
  }

  /** Callbacks that add positive delays make nothing due, and only a cancel removes a timer. */
  lemma {:induction false} OpsAndDue(m: Reference, ops: seq<Op>, j: nat)
    requires Fresh(m) && PositiveDelays(ops) && j < m.nextId
    ensures Fresh(RefOps(m, ops)) && m.nextId <= RefOps(m, ops).nextId && RefOps(m, ops).now == m.now
    ensures j in RefOps(m, ops).pending <==> j in m.pending && !Cancels(ops, j)
    ensures j in RefOps(m, ops).pending ==> RefOps(m, ops).pending[j] == m.pending[j]
    decreases |ops|
  {
    if ops != [] {
      OpsAndDue(RefOp(m, ops[0]), ops[1..], j);
      assert ops == [ops[0]] + ops[1..];
    }
  }

  lemma {:induction false} NewTimersAreNotDue(m: Reference, ops: seq<Op>, j: nat)
    requires Fresh(m) && PositiveDelays(ops) && Due(RefOps(m, ops), j)
    ensures Due(m, j) && RefOps(m, ops).pending[j] == m.pending[j]
    decreases |ops|
  {
    if ops != [] {
      NewTimersAreNotDue(RefOp(m, ops[0]), ops[1..], j);
    }
  }

  function AfterCallback(m: Reference, script: seq<seq<Op>>): (r: Reference) {
    if script == [] then m else RefOps(m, script[0])
  }

  function RestOf(script: seq<seq<Op>>): (r: seq<seq<Op>>) {
    if script == [] then [] else script[1..]
  }

  // The k-th callback of a pass with this script cancels timer `id`.
  ghost predicate CancelledAt(script: seq<seq<Op>>, k: int, id: nat) {
    0 <= k < |script| && Cancels(script[k], id)
  }

  /** Everything fired was due when the pass began, in strictly increasing (expiry, id) order. */
  lemma {:induction false} RefPassFiresInOrder(m: Reference, script: seq<seq<Op>>)
    requires Fresh(m) && PositiveScript(script)
    ensures forall f :: f in RefPass(m, script).1 ==> Due(m, f.id) && f.event == m.pending[f.id]
    ensures forall i, j :: 0 <= i < j < |RefPass(m, script).1| ==>
              Before(Entry(RefPass(m, script).1[i].event.at, RefPass(m, script).1[i].id),
                     Entry(RefPass(m, script).1[j].event.at, RefPass(m, script).1[j].id))
    decreases |script|, |m.pending|
  {
    if exists id :: Next(m, id) {
      var id :| Next(m, id);
      var rest := StepOfRefPass(m, script, id);
      var m0 := m.(pending := m.pending - {id});
      var m1 := AfterCallback(m0, script);
      var s := RestOf(script);
      forall f | f in rest
        ensures Due(m, f.id) && f.id != id && f.event == m.pending[f.id]
      {
        if script != [] { NewTimersAreNotDue(m0, script[0], f.id); }
      }
      var all := RefPass(m, script).1;
      forall i, j | 0 <= i < j < |all|
        ensures Before(Entry(all[i].event.at, all[i].id), Entry(all[j].event.at, all[j].id))
      {
        assert all[j] in rest;
        if 0 < i { assert all[i] == rest[i - 1] && all[j] == rest[j - 1]; }
      }
    }
  }

  /** One unfolding of RefPass, with the induction hypothesis of its rest. */
  lemma {:induction false} StepOfRefPass(m: Reference, script: seq<seq<Op>>, id: nat) returns (rest: seq<Fired>)
    requires Fresh(m) && PositiveScript(script) && Next(m, id)
    ensures RefPass(m, script).1 == [Fired(id, m.pending[id])] + rest
    ensures var m1 := AfterCallback(m.(pending := m.pending - {id}), script);
            && Fresh(m1) && m1.now == m.now
            && RefPass(m, script).0 == RefPass(m1, RestOf(script)).0
            && rest == RefPass(m1, RestOf(script)).1
            && (forall f :: f in rest ==> Due(m1, f.id) && f.event == m1.pending[f.id])
            && (forall i, j :: 0 <= i < j < |rest| ==>
                  Before(Entry(rest[i].event.at, rest[i].id), Entry(rest[j].event.at, rest[j].id)))
    decreases |script|, |m.pending|, 0
  {
    var n :| Next(m, n);
    var m0 := m.(pending := m.pending - {id});
    assert m.pending.Keys == m0.pending.Keys + {id};
    var m1 := AfterCallback(m0, script);
    if script != [] { OpsAndDue(m0, script[0], id); }
    rest := RefPass(m1, RestOf(script)).1;
    RefPassFiresInOrder(m1, RestOf(script));
  }

  /** A due timer means there is a next one: the order (expiry, id) has a least element. */
  lemma {:induction false} NextExists(m: Reference, id: nat)
    requires Due(m, id)
    ensures exists n :: Next(m, n)
    decreases |m.pending|
  {
    var m0 := m.(pending := m.pending - {id});
    assert m.pending.Keys == m0.pending.Keys + {id};
    if j :| Due(m0, j) {
      NextExists(m0, j);
      var n :| Next(m0, n);
      var least := if Before(Entry(m.pending[id].at, id), Entry(m.pending[n].at, n)) then id else n;
      forall k | Due(m, k) && k != least
        ensures Before(Entry(m.pending[least].at, least), Entry(m.pending[k].at, k))
      {
        if k != id { assert Due(m0, k); }
      }
      assert Next(m, least);
    } else {
      forall k | Due(m, k)
        ensures k == id
      {
        if k != id { assert Due(m0, k); }
      }
      assert Next(m, id);
    }
  }

  ghost predicate FiresAt(fired: seq<Fired>, i: int, id: nat) {
    0 <= i < |fired| && fired[i].id == id
  }

  /**
    What becomes of timer `j`: nothing is due after the pass; a timer that was due has fired
    or was cancelled by a callback of the pass, and never fires after such a cancel; a timer
    that was not due stays as it was unless a callback of the pass cancelled it.
   */
  lemma {:induction false} RefPassOutcome(m: Reference, script: seq<seq<Op>>, j: nat)
    requires Fresh(m) && PositiveScript(script) && j < m.nextId
    ensures var (left, fired) := RefPass(m, script);
            && Fresh(left) && left.now == m.now && m.nextId <= left.nextId
            && (forall id :: !Due(left, id))
            && (j in left.pending <==>
                j in m.pending && !Due(m, j) && forall k :: k < |fired| ==> !CancelledAt(script, k, j))
            && (j in left.pending ==> left.pending[j] == m.pending[j])
            && (forall i, k :: FiresAt(fired, i, j) && k < i ==> !CancelledAt(script, k, j))
            && (Due(m, j) && (forall i :: !FiresAt(fired, i, j)) ==>
                exists k :: k < |fired| && CancelledAt(script, k, j))
    decreases |script|, |m.pending|
  {
    if id0 :| Next(m, id0) {
      var rest := StepOfRefPass(m, script, id0);
      var m0 := m.(pending := m.pending - {id0});
      assert m.pending.Keys == m0.pending.Keys + {id0};
      var m1 := AfterCallback(m0, script);
      if script != [] { OpsAndDue(m0, script[0], j); }
      RefPassOutcome(m1, RestOf(script), j);
      OutcomeOfStep(m, script, j, id0, rest);
    } else {
      if id :| Due(m, id) { NextExists(m, id); }
    }
  }

  /** Carries RefPassOutcome from the rest of a pass to the whole pass. */
  lemma {:induction false} OutcomeOfStep(m: Reference, script: seq<seq<Op>>, j: nat, id0: nat, rest: seq<Fired>)
    requires Fresh(m) && PositiveScript(script) && j < m.nextId && Next(m, id0)
    requires var m1 := AfterCallback(m.(pending := m.pending - {id0}), script);
             && (j in m1.pending <==> j in m.pending && j != id0 && !CancelledAt(script, 0, j))
             && (j in m1.pending ==> m1.pending[j] == m.pending[j])
             && m1.now == m.now
             && (forall i, k :: FiresAt(rest, i, j) && k < i ==> !CancelledAt(RestOf(script), k, j))
             && (forall f :: f in rest ==> Due(m1, f.id))
             && (Due(m1, j) && (forall i :: !FiresAt(rest, i, j)) ==>
                 exists k :: k < |rest| && CancelledAt(RestOf(script), k, j))
    ensures var fired := [Fired(id0, m.pending[id0])] + rest;
            && (forall i, k :: FiresAt(fired, i, j) && k < i ==> !CancelledAt(script, k, j))
            && (Due(m, j) && (forall i :: !FiresAt(fired, i, j)) ==>
                exists k :: k < |fired| && CancelledAt(script, k, j))
            && ((forall k :: k < |fired| ==> !CancelledAt(script, k, j)) <==>
                !CancelledAt(script, 0, j) && forall k :: k < |rest| ==> !CancelledAt(RestOf(script), k, j))
  {
    var fired := [Fired(id0, m.pending[id0])] + rest;
    assert forall i :: 0 < i ==> (FiresAt(fired, i, j) <==> FiresAt(rest, i - 1, j));
    assert forall k :: 0 < k ==> (CancelledAt(script, k, j) <==> CancelledAt(RestOf(script), k - 1, j));
    forall i, k | FiresAt(fired, i, j) && k < i
      ensures !CancelledAt(script, k, j)
    {
      if 0 < i {
        assert FiresAt(rest, i - 1, j) && rest[i - 1] in rest;
        assert 0 < k ==> !CancelledAt(RestOf(script), k - 1, j);
      }
    }
    if Due(m, j) && (forall i :: !FiresAt(fired, i, j)) {
      assert FiresAt(fired, 0, id0);
      forall i
        ensures !FiresAt(rest, i, j)
      {
        assert FiresAt(rest, i, j) ==> FiresAt(fired, i + 1, j);
      }
      if CancelledAt(script, 0, j) {
      } else {
        var k :| k < |rest| && CancelledAt(RestOf(script), k, j);
        assert CancelledAt(script, k + 1, j);
      }
    }
    forall k | k < |rest| && CancelledAt(RestOf(script), k, j)
      ensures CancelledAt(script, k + 1, j)
    {
    }
    forall k | k < |fired| && CancelledAt(script, k, j)
      ensures CancelledAt(script, 0, j) || CancelledAt(RestOf(script), k - 1, j)
    {
    }
  }

  /**
    Expired from the start of the expiry index: it fires exactly the due timers that no callback
    of the pass cancelled before their turn, each once, by expiry and then by age; it leaves
    nothing due in either index; and it fires no more callbacks than there were pending timers,
    however many timers the callbacks add.
   */
  lemma {:induction false} ExpiredFiresExactlyTheDue(q: TimerQueue, script: seq<seq<Op>>, j: nat)
    requires Consistent(q) && PositiveScript(script) && j < q.nextId
    ensures var (left, fired) := Pass(Walk(q, 0), script);
            && (forall f :: f in fired ==> Due(Pending(q), f.id) && f.event == q.events[f.id])
            && (forall a, b :: 0 <= a < b < |fired| ==>
                  Before(Entry(fired[a].event.at, fired[a].id), Entry(fired[b].event.at, fired[b].id)))
            && (Due(Pending(q), j) ==>
                (exists i :: FiresAt(fired, i, j)) || (exists k :: k < |fired| && CancelledAt(script, k, j)))
            && (forall i, k :: FiresAt(fired, i, j) && k < i ==> !CancelledAt(script, k, j))
            && (j in left.events <==>
                j in q.events && !Due(Pending(q), j) && forall k :: k < |fired| ==> !CancelledAt(script, k, j))
            && (forall i :: 0 <= i < |left.entries| ==> q.now < left.entries[i].at)
            && (forall id :: id in left.events ==> q.now < left.events[id].at)
            && |fired| <= |q.events|
  {
    var m := Pending(q);
    PassRefinesMap(Walk(q, 0), script);
    RefPassFiresInOrder(m, script);
    RefPassOutcome(m, script, j);
    var (left, fired) := Pass(Walk(q, 0), script);
    forall id | id in left.events
      ensures q.now < left.events[id].at
    {
      assert !Due(RefPass(m, script).0, id);
    }
    DistinctFiredFit(fired, q.events.Keys);
  }

  lemma {:induction false} DistinctFiredFit(fired: seq<Fired>, ids: set<nat>)
    requires forall f :: f in fired ==> f.id in ids
    requires forall a, b :: 0 <= a < b < |fired| ==>
               Before(Entry(fired[a].event.at, fired[a].id), Entry(fired[b].event.at, fired[b].id))
    requires forall f, g :: f in fired && g in fired && f.id == g.id ==> f.event == g.event
    ensures |fired| <= |ids|
    decreases |fired|
  {
    if fired != [] {
      var last := fired[|fired| - 1];
      assert forall a :: 0 <= a < |fired| - 1 ==> fired[a] in fired;
      DistinctFiredFit(fired[..|fired| - 1], ids - {last.id});
    }
  }

  /**
    With a delay of 0 the pass can leave a due timer behind: the only due timer's callback
    re-arms itself for now, and its new entry lands before the iterator, which is already at
    the end.
   */
  lemma {:induction false} ZeroDelayIsLeftDue()
    ensures var q := TimerQueue([Entry(10, 1)], map[1 := TimerEvent(7, 0, 10)], 2, 10);
            var (left, fired) := Pass(Walk(q, 0), [[Add(0, 7, 0)]]);
            && Consistent(q) && |fired| == 1
            && left.entries == [Entry(10, 2)] && Due(Pending(left), 2)
  {
    var q := TimerQueue([Entry(10, 1)], map[1 := TimerEvent(7, 0, 10)], 2, 10);
    var w := Pop(Walk(q, 0));
    assert w.q.entries == [] && w.q.events == map[];
    assert UpperBound([], 10) == 0;
    var w' := RunOp(w, Add(0, 7, 0));
    assert w'.pos == 1 && w'.q.entries == [Entry(10, 2)];
    assert RunOps(w, [Add(0, 7, 0)]) == RunOps(w', []) == w';
    assert [[Add(0, 7, 0)]][1..] == [];
    assert Pass(w', []) == (w'.q, []);
    assert q.entries[0] in q.entries;
  }

  /**
    An entry for a time not after now that lands before the iterator: the next element expires
    later, or there is none.
   */
  predicate Skipped(w: Walk, op: Op) {
    op.Add? && op.delay <= 0 && (w.pos < |w.q.entries| ==> w.q.now + op.delay < w.q.entries[w.pos].at)
  }

  predicate SkipsIn(w: Walk, ops: seq<Op>)
    decreases |ops|
  {
    ops != [] && (Skipped(w, ops[0]) || SkipsIn(RunOp(w, ops[0]), ops[1..]))
  }

  /** Some callback of the pass adds an entry that the pass will not meet. */
  predicate SkipsAny(w: Walk, script: seq<seq<Op>>)
    decreases |script|, |w.q.entries| - w.pos
  {
    && AtDue(w) && script != []
    && if w.q.entries[w.pos].id !in w.q.events then SkipsAny(Pop(w), script)
       else SkipsIn(Pop(w), script[0]) || SkipsAny(RunOps(Pop(w), script[0]), script[1..])
  }

  ghost predicate DueWithin(es: seq<Entry>, n: nat, now: int) {
    exists i :: 0 <= i < n <= |es| && es[i].at <= now
  }

  ghost predicate OnPath(w: Walk) {
    Consistent(w.q) && w.pos <= |w.q.entries|
  }

  lemma {:induction false} DueAfterInsert(es: seq<Entry>, p: nat, e: Entry, pos: nat, now: int)
    requires p <= |es| && pos <= |es|
    ensures p <= pos ==> (DueWithin(InsertAt(es, p, e), pos + 1, now) <==> DueWithin(es, pos, now) || e.at <= now)
    ensures pos < p ==> (DueWithin(InsertAt(es, p, e), pos, now) <==> DueWithin(es, pos, now))
  {
    var r := InsertAt(es, p, e);
    forall i | 0 <= i < |es|
      ensures es[i] == r[if i < p then i else i + 1]
    {
    }
    assert r[p] == e;
  }

  lemma {:induction false} RunOpAndDue(w: Walk, op: Op)
    requires OnPath(w)
    ensures var r := RunOp(w, op);
            && OnPath(r) && r.q.now == w.q.now
            && (DueWithin(r.q.entries, r.pos, w.q.now) <==> DueWithin(w.q.entries, w.pos, w.q.now) || Skipped(w, op))
  {
    if op.Add? {
      var at := w.q.now + op.delay;
      var p := UpperBound(w.q.entries, at);
      FirstAboveSplits(w.q.entries, at, 0);
      ArmKeepsConsistent(w.q, op.delay, op.code, op.param);
      DueAfterInsert(w.q.entries, p, Entry(at, w.q.nextId), w.pos, w.q.now);
    }
  }

  lemma {:induction false} RunOpsAndDue(w: Walk, ops: seq<Op>)
    requires OnPath(w)
    ensures var r := RunOps(w, ops);
            && OnPath(r) && r.q.now == w.q.now
            && (DueWithin(r.q.entries, r.pos, w.q.now) <==> DueWithin(w.q.entries, w.pos, w.q.now) || SkipsIn(w, ops))
    decreases |ops|
  {
    if ops != [] {
      RunOpAndDue(w, ops[0]);
      RunOpsAndDue(RunOp(w, ops[0]), ops[1..]);
    }
  }

  lemma {:induction false} PopAndDue(w: Walk)
    requires OnPath(w) && AtDue(w)
    ensures OnPath(Pop(w))
    ensures DueWithin(Pop(w).q.entries, w.pos, w.q.now) <==> DueWithin(w.q.entries, w.pos, w.q.now)
  {
    RemoveKeepsConsistent(w.q, w.pos);
    var r := Pop(w).q.entries;
    assert forall i :: 0 <= i < w.pos ==> r[i] == w.q.entries[i];
  }

  lemma {:induction false} NoneDueFrom(w: Walk)
    requires OnPath(w) && !AtDue(w)
    ensures DueWithin(w.q.entries, |w.q.entries|, w.q.now) <==> DueWithin(w.q.entries, w.pos, w.q.now)
  {
    assert forall i :: w.pos < i < |w.q.entries| ==> Before(w.q.entries[w.pos], w.q.entries[i]);
  }

  lemma {:induction false} PassAndDue(w: Walk, script: seq<seq<Op>>)
    requires OnPath(w)
    ensures var left := Pass(w, script).0.entries;
            DueWithin(left, |left|, w.q.now) <==> DueWithin(w.q.entries, w.pos, w.q.now) || SkipsAny(w, script)
    decreases |script|, |w.q.entries| - w.pos
  {
    if !AtDue(w) {
      NoneDueFrom(w);
    } else {
      PopAndDue(w);
      var w1 := Pop(w);
      if w.q.entries[w.pos].id !in w.q.events || script == [] {
        PassAndDue(w1, script);
      } else {
        RunOpsAndDue(w1, script[0]);
        PassAndDue(RunOps(w1, script[0]), script[1..]);
      }
    }
  }

  /**
    For any delays: the pass leaves a due entry behind if and only if some callback adds one for a
    time not after now while the iterator stands at a later entry or at the end.
   */
  lemma {:induction false} NothingIsLeftDueExactlyWhen(q: TimerQueue, script: seq<seq<Op>>)
    requires Consistent(q)
    ensures var left := Pass(Walk(q, 0), script).0.entries;
            (forall i :: 0 <= i < |left| ==> q.now < left[i].at) <==> !SkipsAny(Walk(q, 0), script)
  {
    PassAndDue(Walk(q, 0), script);
  }

  // ---------------------------------------------------------------- whole runs

  datatype Cmd = Do(op: Op) | Tick(now: int, script: seq<seq<Op>>)

  function Exec(q: TimerQueue, c: Cmd): (r: (TimerQueue, seq<Fired>)) {
    match c
    case Do(op) => (RunOp(Walk(q, 0), op).q, [])
    case Tick(now, script) => Pass(Walk(q.(now := now), 0), script)
  }

  function ExecAll(q: TimerQueue, cs: seq<Cmd>): (r: (TimerQueue, seq<Fired>))
    decreases |cs|
  {
    if cs == [] then (q, [])
    else
      var (q1, fired) := Exec(q, cs[0]);
      var (q2, more) := ExecAll(q1, cs[1..]);
      (q2, fired + more)
  }

  // The id was handed out and its timer is no longer pending.
  ghost predicate Gone(q: TimerQueue, id: nat) {
    id < q.nextId && id !in q.events
  }

  ghost predicate Fires(fired: seq<Fired>, id: nat) {
    exists f :: f in fired && f.id == id
  }

  ghost predicate FiresOnce(fired: seq<Fired>) {
    forall i, j :: 0 <= i < j < |fired| ==> fired[i].id != fired[j].id
  }

  lemma {:induction false} RunOpsKeepGone(w: Walk, ops: seq<Op>, id: nat)
    requires Consistent(w.q)
    ensures Consistent(RunOps(w, ops).q) && w.q.nextId <= RunOps(w, ops).q.nextId
    ensures Gone(w.q, id) ==> Gone(RunOps(w, ops).q, id)
    decreases |ops|
  {
    if ops != [] {
      if ops[0].Add? { ArmKeepsConsistent(w.q, ops[0].delay, ops[0].code, ops[0].param); }
      RunOpsKeepGone(RunOp(w, ops[0]), ops[1..], id);
    }
  }

  // A pass from `q` to `q'` respects `id`: it does not fire a gone timer, and what it fires is gone.
  ghost predicate Respects(q: TimerQueue, q': TimerQueue, fired: seq<Fired>, id: nat) {
    && (Gone(q, id) ==> Gone(q', id) && !Fires(fired, id))
    && (Fires(fired, id) ==> Gone(q', id))
  }

  /** For any delays: a pass never fires a gone timer, and what it fires is gone, each once. */
  lemma {:induction false} PassAndGone(w: Walk, script: seq<seq<Op>>, id: nat)
    requires Consistent(w.q)
    ensures Consistent(Pass(w, script).0) && w.q.nextId <= Pass(w, script).0.nextId
    ensures FiresOnce(Pass(w, script).1)
    ensures Respects(w.q, Pass(w, script).0, Pass(w, script).1, id)
    decreases |script|, |w.q.entries| - w.pos
  {
    if AtDue(w) {
      RemoveKeepsConsistent(w.q, w.pos);
      var head := w.q.entries[w.pos].id;
      if head !in w.q.events {
        PassAndGone(Pop(w), script, id);
      } else {
        var w1 := if script == [] then Pop(w) else RunOps(Pop(w), script[0]);
        if script != [] {
          RunOpsKeepGone(Pop(w), script[0], id);
          RunOpsKeepGone(Pop(w), script[0], head);
        }
        var s := RestOf(script);
        PassAndGone(w1, s, id);
        PassAndGone(w1, s, head);
        ConsAndGone(w.q, w1.q, Pass(w1, s).0, Fired(head, w.q.events[head]), Pass(w1, s).1, id);
      }
    }
  }

  lemma {:induction false} ConsAndGone(
    q: TimerQueue, q1: TimerQueue, q2: TimerQueue, f: Fired, rest: seq<Fired>, id: nat)
    requires f.id in q.events && Gone(q1, f.id) && FiresOnce(rest)
    requires Gone(q, id) ==> Gone(q1, id)
    requires Respects(q1, q2, rest, id) && Respects(q1, q2, rest, f.id)
    ensures FiresOnce([f] + rest) && Respects(q, q2, [f] + rest, id)
  {
    forall i | 0 <= i < |rest|
      ensures rest[i].id != f.id
    {
      assert Fires(rest, rest[i].id) by { assert rest[i] in rest; }
    }
    if Fires([f] + rest, id) && id != f.id {
      var g :| g in [f] + rest && g.id == id;
      assert g in rest;
    }
  }

  lemma {:induction false} ExecAndGone(q: TimerQueue, c: Cmd, id: nat)
    requires Consistent(q)
    ensures var (q1, fired) := Exec(q, c);
            && Consistent(q1) && q.nextId <= q1.nextId && FiresOnce(fired)
            && (Gone(q, id) ==> Gone(q1, id) && !Fires(fired, id))
            && (Fires(fired, id) ==> Gone(q1, id))
  {
    match c
    case Do(op) =>
      assert RunOps(Walk(q, 0), [op]) == RunOps(RunOp(Walk(q, 0), op), [][..]);
      RunOpsKeepGone(Walk(q, 0), [op], id);
    case Tick(now, script) =>
      PassAndGone(Walk(q.(now := now), 0), script, id);
  }

  /**
    In every run, with any delays and any callbacks: no timer fires twice, and a timer that has
    been cancelled or has fired never fires again.
   */
  lemma {:induction false} RunFiresAtMostOnce(q: TimerQueue, cs: seq<Cmd>, id: nat)
    requires Consistent(q)
    ensures var (q', fired) := ExecAll(q, cs);
            && Consistent(q') && FiresOnce(fired)
            && (Gone(q, id) ==> !Fires(fired, id) && Gone(q', id))
    decreases |cs|
  {
    if cs != [] {
      var (q1, fired) := Exec(q, cs[0]);
      var more := ExecAll(q1, cs[1..]).1;
      ExecAndGone(q, cs[0], id);
      RunFiresAtMostOnce(q1, cs[1..], id);
      forall f, g | f in fired && g in more
        ensures f.id != g.id
      {
        ExecAndGone(q, cs[0], f.id);
        RunFiresAtMostOnce(q1, cs[1..], f.id);
        assert Fires(fired, f.id) && Fires(more, g.id);
      }
      var all := fired + more;
      forall i, j | 0 <= i < j < |all|
        ensures all[i].id != all[j].id
      {
        if i < |fired| <= j { assert all[i] in fired && all[j] in more; }
      }
    }
  }

  // ---------------------------------------------------------------- the object

  function Adds(ops: seq<Op>): (n: nat)
    decreases |ops|
  {
    if ops == [] then 0 else (if ops[0].Add? then 1 else 0) + Adds(ops[1..])
  }

  function AllAdds(script: seq<seq<Op>>): (n: nat)
    decreases |script|
  {
    if script == [] then 0 else Adds(script[0]) + AllAdds(script[1..])
  }

  class TimerMgr {
    var entries: seq<Entry>          // m_mpTimers
    var events: map<nat, TimerEvent> // m_mpTimerEvents
    var nextId: nat                  // dwNextTimerID
    var now: int                     // m_curMsTime

    ghost function View(): TimerQueue
      reads this
    {
      TimerQueue(entries, events, nextId, now)
    }

    constructor (startMs: int)
      ensures View() == TimerQueue([], map[], 1, startMs) && Consistent(View())
    {
      entries, events, nextId, now := [], map[], 1, startMs;
    }

    method AddTimer(delay: int, code: int, param: int) returns (id: nat)
      requires nextId < ID_SPACE && |events| < ID_SPACE
      modifies this
      ensures FirstFree(old(events).Keys, old(nextId), id)
      ensures View() == Arm(old(View()).(nextId := id), delay, code, param).(nextId := IdAfter(id, 1))
      ensures old(nextId) !in old(events) ==> id == old(nextId)
    {
      var at := now + delay;
      id := SkipUsed(events.Keys, nextId);
      entries := InsertAt(entries, UpperBound(entries, at), Entry(at, id));
      events := events[id := TimerEvent(code, param, at)];
      nextId := IdAfter(id, 1);
    }

    /** AddTimer while ids have not run out: the new timer gets the next one. */
    method AddFresh(delay: int, code: int, param: int) returns (id: nat)
      requires Consistent(View()) && nextId + 1 < ID_SPACE
      modifies this
      ensures id == old(nextId) && View() == Arm(old(View()), delay, code, param)
      ensures Consistent(View())
    {
      ArmKeepsConsistent(View(), delay, code, param);
      assert nextId !in events;
      BelowBound(events.Keys, nextId);
      id := AddTimer(delay, code, param);
    }

    method CancelTimer(id: nat)
      modifies this
      ensures View() == Disarm(old(View()), id)
    {
      events := events - {id};
    }

    /** The callbacks' effects on this object are `script`. */
    method Expired(script: seq<seq<Op>>) returns (fired: seq<Fired>)
      requires Consistent(View()) && nextId + AllAdds(script) + 1 < ID_SPACE
      modifies this
      ensures (View(), fired) == Pass(Walk(old(View()), 0), script)
      ensures Consistent(View()) && nextId < ID_SPACE
    {
      var it: nat := 0;
      var todo := script;
      fired := [];
      ghost var start := Walk(View(), 0);
      while it < |entries| && entries[it].at <= now
        invariant Consistent(View()) && nextId + AllAdds(todo) + 1 < ID_SPACE
        invariant Pass(start, script).0 == Pass(Walk(View(), it), todo).0
        invariant Pass(start, script).1 == fired + Pass(Walk(View(), it), todo).1
        decreases |todo|, |entries| - it
      {
        ghost var before := Pass(Walk(View(), it), todo);
        var f;
        it, f := ExpireHead(it, if todo == [] then [] else todo[0]);
        if f.Some? {
          todo := if todo == [] then [] else todo[1..];
          ghost var after := Pass(Walk(View(), it), todo);
          assert before == (after.0, [f.value] + after.1);
          assert fired + before.1 == (fired + [f.value]) + after.1;
          fired := fired + [f.value];
        }
      }
      assert fired + [] == fired;
    }

    method ExpireHead(it: nat, ops: seq<Op>) returns (it': nat, f: Option<Fired>)
      requires AtDue(Walk(View(), it))
      requires Consistent(View()) && nextId + Adds(ops) + 1 < ID_SPACE
      modifies this
      ensures Consistent(View()) && nextId <= old(nextId) + if f.Some? then Adds(ops) else 0
      ensures var w := old(Walk(View(), it));
              var id := w.q.entries[it].id;
              if id in w.q.events then
                f == Some(Fired(id, w.q.events[id])) && Walk(View(), it') == RunOps(Pop(w), ops)
              else
                f == None && Walk(View(), it') == Pop(w)
    {
      RemoveKeepsConsistent(View(), it);
      f := PopHead(it);
      it' := it;
      if f.Some? { it' := RunCallback(it, ops); }
    }

    /** Takes the element under the iterator off, and its event if it was not cancelled. */
    method PopHead(it: nat) returns (f: Option<Fired>)
      requires AtDue(Walk(View(), it))
      modifies this
      ensures Walk(View(), it) == Pop(old(Walk(View(), it)))
      ensures var id := old(entries)[it].id;
              f == if id in old(events) then Some(Fired(id, old(events)[id])) else None
    {
      var id := entries[it].id;
      entries := RemoveAt(entries, it);
      f := if id in events then Some(Fired(id, events[id])) else None;
      events := events - {id};
    }

    /** A callback's calls on this object; the result is the walk's iterator after them. */
    method RunCallback(it: nat, ops: seq<Op>) returns (it': nat)
      requires Consistent(View()) && nextId + Adds(ops) + 1 < ID_SPACE
      modifies this
      ensures Walk(View(), it') == RunOps(Walk(old(View()), it), ops)
      ensures Consistent(View()) && nextId == old(nextId) + Adds(ops)
    {
      it' := it;
      ghost var start := Walk(View(), it);
      assert ops[0..] == ops;
      for i := 0 to |ops|
        invariant Consistent(View()) && nextId + Adds(ops[i..]) == old(nextId) + Adds(ops)
        invariant RunOps(start, ops) == RunOps(Walk(View(), it'), ops[i..])
      {
        assert ops[i..][0] == ops[i] && ops[i..][1..] == ops[i + 1..];
        it' := RunCall(it', ops[i]);
      }
    }

    method RunCall(it: nat, op: Op) returns (it': nat)
      requires Consistent(View()) && nextId + 1 < ID_SPACE
      modifies this
      ensures Walk(View(), it') == RunOp(Walk(old(View()), it), op)
      ensures Consistent(View()) && nextId == old(nextId) + if op.Add? then 1 else 0
    {
      it' := it;
      match op {
        case Cancel(id) =>
          CancelTimer(id);
        case Add(delay, code, param) =>
          var p := UpperBound(entries, now + delay);
          var _ := AddFresh(delay, code, param);
          if p <= it { it' := it + 1; }
      }
    }
  }
}
