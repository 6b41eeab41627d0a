/**
  Which commands RedisAgent::CheckTimeOut times out.  The scan follows a cursor that never looks
  back, starts ahead of the id counter and, while it is ahead, is moved further ahead by every
  check: a command issued behind the cursor is out of its reach until the cursor wraps at 2^32.
 */
module RedisTimeouts {
  import opened Ids
  import opened Redis

  // ---------------------------------------------------------------- the reference

  /** The overdue ids in [lo, hi), found by looking at every one of them. */
  function OverdueIds(pool: map<nat, Callback>, lo: nat, hi: nat, now: int): (r: seq<nat>)
    decreases hi - lo
  {
    if hi <= lo then []
    else (if Overdue(pool, lo, now) then [lo] else []) + OverdueIds(pool, lo + 1, hi, now)
  }

  function AsTimedOut(ids: seq<nat>): (r: seq<Done>)
    ensures |r| == |ids|
    decreases |ids|
  {
    if ids == [] then [] else [Done(ids[0], true)] + AsTimedOut(ids[1..])
  }

  lemma {:induction false} SameOverdue(p: map<nat, Callback>, q: map<nat, Callback>, lo: nat, hi: nat, now: int)
    requires forall id: nat :: lo <= id < hi ==> (Overdue(p, id, now) <==> Overdue(q, id, now))
    ensures OverdueIds(p, lo, hi, now) == OverdueIds(q, lo, hi, now)
    decreases hi - lo
  {
    if lo < hi { SameOverdue(p, q, lo + 1, hi, now); }
  }

  lemma {:induction false} NoneOverdue(p: map<nat, Callback>, lo: nat, hi: nat, now: int)
    ensures OverdueIds(p, lo, hi, now) == [] <==> forall id: nat :: lo <= id < hi ==> !Overdue(p, id, now)
    decreases hi - lo
  {
    if lo < hi { NoneOverdue(p, lo + 1, hi, now); }
  }

  lemma {:induction false} OverdueSplit(p: map<nat, Callback>, lo: nat, mid: nat, hi: nat, now: int)
    requires lo <= mid <= hi
    ensures OverdueIds(p, lo, hi, now) == OverdueIds(p, lo, mid, now) + OverdueIds(p, mid, hi, now)
    decreases mid - lo
  {
    if lo < mid { OverdueSplit(p, lo + 1, mid, hi, now); }
  }

  lemma {:induction false} OverdueMembers(p: map<nat, Callback>, lo: nat, hi: nat, now: int, id: nat)
    ensures id in OverdueIds(p, lo, hi, now) <==> lo <= id < hi && Overdue(p, id, now)
    decreases hi - lo
  {
    if lo < hi { OverdueMembers(p, lo + 1, hi, now, id); }
  }

  lemma {:induction false} TimedOutMembers(ids: seq<nat>, id: nat)
    ensures Done(id, true) in AsTimedOut(ids) <==> id in ids
    decreases |ids|
  {
    if ids != [] {
      TimedOutMembers(ids[1..], id);
      assert ids == [ids[0]] + ids[1..];
    }
  }

  // ---------------------------------------------------------------- what a completion leaves alone

  /** Later ids were issued no earlier, and none in the future. */
  ghost predicate TimesOrdered(a: Agent, now: int) {
    && (forall i, j :: i in a.pool && j in a.pool && i <= j ==> a.pool[i].time <= a.pool[j].time)
    && (forall i :: i in a.pool ==> a.pool[i].time <= now)
  }

  ghost predicate InOrder(a: Agent, now: int) {
    IdsBelow(a) && TimesOrdered(a, now)
  }

  // From a to r only commands at time `now` were issued.
  ghost predicate OnlyIssued(a: Agent, r: Agent, now: int) {
    && a.nextId <= r.nextId && r.cursor == a.cursor && r.done == a.done
    && (forall id :: id in a.pool ==> id in r.pool && r.pool[id] == a.pool[id])
    && (forall id :: id in r.pool && id !in a.pool ==> a.nextId <= id < r.nextId && r.pool[id].time == now)
  }

  lemma {:induction false} IssueAllOnlyIssues(a: Agent, cs: seq<Cmd>, now: int)
    requires IdsBelow(a)
    ensures OnlyIssued(a, IssueAll(a, cs, now), now) && IdsBelow(IssueAll(a, cs, now))
    decreases |cs|
  {
    if cs != [] {
      assert OnlyIssued(a, Issue(a, cs[0], false, now), now);
      IssueAllOnlyIssues(Issue(a, cs[0], false, now), cs[1..], now);
    }
  }

  // From a to r the entry `id` was completed, and only commands at time `now` were issued.
  ghost predicate OnlyCompleted(a: Agent, r: Agent, id: nat, timedOut: bool, now: int) {
    && IdsBelow(r) && a.nextId <= r.nextId && r.done == a.done + [Done(id, timedOut)] && id !in r.pool
    && (forall j :: j in a.pool && j != id ==> j in r.pool && r.pool[j] == a.pool[j])
    && (forall j :: j in r.pool && j !in a.pool ==> a.nextId <= j && r.pool[j].time == now)
  }

  lemma {:induction false} CompleteShape(a: Agent, id: nat, timedOut: bool, cs: seq<Cmd>, now: int)
    requires IdsBelow(a) && id in a.pool
    ensures var r := Complete(a, id, timedOut, cs, now);
            OnlyCompleted(a, r, id, timedOut, now) && r.cursor == a.cursor
  {
    IssueAllOnlyIssues(Handing(a, id, timedOut), cs, now);
  }

  lemma {:induction false} ExpireShape(a: Agent, cs: seq<Cmd>, now: int)
    requires IdsBelow(a) && a.cursor in a.pool
    ensures var r := Expire(a, cs, now);
            OnlyCompleted(a, r, a.cursor, true, now) && r.cursor == IdAfter(a.cursor, 1)
  {
    CompleteShape(a, a.cursor, true, cs, now);
  }

  lemma {:induction false} CompletedInOrder(a: Agent, r: Agent, id: nat, timedOut: bool, now: int)
    requires InOrder(a, now) && OnlyCompleted(a, r, id, timedOut, now)
    ensures InOrder(r, now)
  {
  }

  lemma {:induction false} ScanGrows(a: Agent, n: int, capped: bool, script: seq<seq<Cmd>>, now: int)
    requires IdsBelow(a)
    ensures a.nextId <= Scan(a, n, capped, script, now).nextId && IdsBelow(Scan(a, n, capped, script, now))
    decreases n
  {
    if n <= 0 || (capped && a.nextId < a.cursor) {
    } else if a.cursor !in a.pool {
      ScanGrows(Moved(a), n - 1, capped, script, now);
    } else if Overdue(a.pool, a.cursor, now) {
      ExpireShape(a, First(script), now);
      ScanGrows(Expire(a, First(script), now), n - 1, capped, Later(script), now);
    }
  }

  // ---------------------------------------------------------------- one check

  /** The id counter does not wrap during the scan, and a cursor that is not stopped by it does not either. */
  ghost predicate ScanFits(a: Agent, n: int, capped: bool, script: seq<seq<Cmd>>, now: int) {
    Scan(a, n, capped, script, now).nextId + 1 < ID_SPACE && (!capped ==> a.cursor + n < ID_SPACE)
  }

  /** One turn of either loop that does not leave it: the cursor moves by one, and the rest fits too. */
  lemma {:induction false} ScanTurn(a: Agent, n: int, capped: bool, script: seq<seq<Cmd>>, now: int)
    returns (a1: Agent, later: seq<seq<Cmd>>)
    requires IdsBelow(a) && ScanFits(a, n, capped, script, now)
    requires 0 < n && (capped ==> a.cursor <= a.nextId)
    requires a.cursor in a.pool ==> Overdue(a.pool, a.cursor, now)
    ensures a1.cursor == a.cursor + 1 && IdsBelow(a1) && ScanFits(a1, n - 1, capped, later, now)
    ensures Scan(a, n, capped, script, now) == Scan(a1, n - 1, capped, later, now)
    ensures if a.cursor in a.pool then OnlyCompleted(a, a1, a.cursor, true, now) && a1 == Expire(a, First(script), now)
            else a1 == a.(cursor := a.cursor + 1)
  {
    ScanGrows(a, n, capped, script, now);
    if a.cursor in a.pool {
      ExpireShape(a, First(script), now);
      a1, later := Expire(a, First(script), now), Later(script);
    } else {
      a1, later := Moved(a), script;
    }
  }

  /**
    Either loop stops at the first entry that is not overdue, and still completes exactly the
    overdue entries of the ids its budget covers, in order.
   */
  lemma {:induction false} ScanIsFullScan(a: Agent, n: nat, capped: bool, script: seq<seq<Cmd>>, now: int)
    requires InOrder(a, now) && ScanFits(a, n, capped, script, now)
    ensures Scan(a, n, capped, script, now).done
            == a.done + AsTimedOut(OverdueIds(a.pool, a.cursor, a.cursor + n, now))
    decreases n
  {
    if n == 0 {
    } else if capped && a.nextId < a.cursor {
      NoneOverdue(a.pool, a.cursor, a.cursor + n, now);
    } else if a.cursor in a.pool && !Overdue(a.pool, a.cursor, now) {
      NoneOverdue(a.pool, a.cursor, a.cursor + n, now);
    } else {
      var a1, later := ScanTurn(a, n, capped, script, now);
      if a.cursor in a.pool { CompletedInOrder(a, a1, a.cursor, true, now); }
      ScanIsFullScan(a1, n - 1, capped, later, now);
      TurnOfFullScan(a, a1, n, now);
    }
  }

  lemma {:induction false} TurnOfFullScan(a: Agent, a1: Agent, n: nat, now: int)
    requires 0 < n && InOrder(a, now)
    requires if a.cursor in a.pool then OnlyCompleted(a, a1, a.cursor, true, now) && Overdue(a.pool, a.cursor, now)
             else a1 == a.(cursor := a.cursor + 1)
    ensures a1.done + AsTimedOut(OverdueIds(a1.pool, a.cursor + 1, a.cursor + n, now))
            == a.done + AsTimedOut(OverdueIds(a.pool, a.cursor, a.cursor + n, now))
  {
    SameOverdue(a.pool, a1.pool, a.cursor + 1, a.cursor + n, now);
    var rest := OverdueIds(a.pool, a.cursor + 1, a.cursor + n, now);
    if a.cursor in a.pool { AsTimedOutCons(a.done, a.cursor, rest); } else { assert [] + rest == rest; }
  }

  lemma {:induction false} AsTimedOutCons(done: seq<Done>, id: nat, ids: seq<nat>)
    ensures done + [Done(id, true)] + AsTimedOut(ids) == done + AsTimedOut([id] + ids)
  {
    assert ([id] + ids)[1..] == ids;
  }

  /** Ahead of the id counter the first loop meets no entry: it only moves the cursor further ahead. */
  lemma {:induction false} AheadDeliversNothing(a: Agent, n: int, script: seq<seq<Cmd>>, now: int)
    requires IdsBelow(a) && a.nextId < a.cursor && a.cursor + n < ID_SPACE
    ensures Scan(a, n, false, script, now) == a.(cursor := a.cursor + if 0 < n then n else 0)
    decreases n
  {
    if 0 < n { AheadDeliversNothing(Moved(a), n - 1, script, now); }
  }

  /**
    A budget that carries the cursor over its wrap: what it covers of the ids from 0 on is scanned,
    and exactly their overdue entries time out, whether or not the cursor had passed them.
   */
  lemma {:induction false} WrappedCursorReachesThePassed(a: Agent, n: nat, script: seq<seq<Cmd>>, now: int)
    requires InOrder(a, now) && a.nextId < a.cursor < ID_SPACE <= a.cursor + n && n < ID_SPACE
    requires Check(a, n, script, now).nextId + 1 < ID_SPACE
    ensures Check(a, n, script, now).done
            == a.done + AsTimedOut(OverdueIds(a.pool, 0, a.cursor + n - ID_SPACE, now))
  {
    WrapsToZero(a, n, script, now);
    ScanIsFullScan(a.(cursor := 0), a.cursor + n - ID_SPACE, false, script, now);
  }

  lemma {:induction false} WrapsToZero(a: Agent, n: nat, script: seq<seq<Cmd>>, now: int)
    requires IdsBelow(a) && a.nextId < a.cursor < ID_SPACE <= a.cursor + n
    ensures Scan(a, n, false, script, now) == Scan(a.(cursor := 0), a.cursor + n - ID_SPACE, false, script, now)
    decreases n
  {
    if a.cursor + 1 < ID_SPACE {
      WrapsToZero(Moved(a), n - 1, script, now);
    } else {
      assert Moved(a) == a.(cursor := 0);
    }
  }

  // What a check needs so that neither the ids nor the cursor wrap in it.
  ghost predicate CheckFits(a: Agent, n: int, script: seq<seq<Cmd>>, now: int) {
    ScanFits(a, n, a.cursor <= a.nextId, script, now)
  }

  /**
    With a budget that reaches the id counter, CheckTimeOut completes exactly the entries that a
    scan of the whole pool finds overdue, if and only if the cursor has not passed one of them.
   */
  lemma {:induction false} CheckTimeOutIsFullScanExactlyWhen(a: Agent, n: nat, script: seq<seq<Cmd>>, now: int)
    requires InOrder(a, now) && a.nextId <= a.cursor + n && CheckFits(a, n, script, now)
    ensures Check(a, n, script, now).done == a.done + AsTimedOut(OverdueIds(a.pool, 0, a.nextId, now))
            <==> forall id: nat :: Overdue(a.pool, id, now) ==> a.cursor <= id
  {
    ScanIsFullScan(a, n, a.cursor <= a.nextId, script, now);
    WholePool(a, n, now);
  }

  // The pool splits at the cursor; beyond the id counter nothing is overdue.
  lemma {:induction false} WholePool(a: Agent, n: nat, now: int)
    requires IdsBelow(a) && a.nextId <= a.cursor + n
    ensures a.done + AsTimedOut(OverdueIds(a.pool, a.cursor, a.cursor + n, now))
            == a.done + AsTimedOut(OverdueIds(a.pool, 0, a.nextId, now))
            <==> forall id: nat :: Overdue(a.pool, id, now) ==> a.cursor <= id
  {
    var below := OverdueIds(a.pool, 0, a.cursor, now);
    var above := OverdueIds(a.pool, a.cursor, a.cursor + n, now);
    OverdueSplit(a.pool, 0, a.cursor, a.cursor + n, now);
    OverdueSplit(a.pool, 0, a.nextId, a.cursor + n, now);
    NoneOverdue(a.pool, a.nextId, a.cursor + n, now);
    NoneOverdue(a.pool, 0, a.cursor, now);
    MoreIsLonger(a.done, below, above);
    var whole := OverdueIds(a.pool, 0, a.nextId, now);
    assert whole == whole + [] == below + above;
  }

  lemma {:induction false} MoreIsLonger(done: seq<Done>, front: seq<nat>, back: seq<nat>)
    ensures done + AsTimedOut(back) == done + AsTimedOut(front + back) <==> front == []
  {
    assert |done + AsTimedOut(back)| == |done| + |back|;
    assert |done + AsTimedOut(front + back)| == |done| + |front| + |back|;
    if front == [] { assert front + back == back; }
  }

  // ---------------------------------------------------------------- what the cursor passes

  // The cursor has passed no pending entry.
  ghost predicate NothingPassed(a: Agent) {
    a.cursor <= a.nextId && forall id :: id in a.pool ==> a.cursor <= id
  }

  // A pending id is behind the cursor if and only if the cursor was ahead of it when it was issued.
  ghost predicate Marked(a: Agent) {
    && |a.marks| + 1 == a.nextId
    && forall id :: id in a.pool ==> 1 <= id < a.nextId && (id < a.cursor <==> id < a.marks[id - 1])
  }

  lemma {:induction false} IssueAllMarks(a: Agent, cs: seq<Cmd>, now: int)
    requires Marked(a)
    ensures Marked(IssueAll(a, cs, now)) && IssueAll(a, cs, now).cursor == a.cursor
    decreases |cs|
  {
    if cs != [] {
      var r := Issue(a, cs[0], false, now);
      assert Marked(r);
      IssueAllMarks(r, cs[1..], now);
    }
  }

  lemma {:induction false} CompleteMarks(a: Agent, id: nat, timedOut: bool, cs: seq<Cmd>, now: int)
    requires Marked(a) && id in a.pool
    ensures var r := Complete(a, id, timedOut, cs, now); Marked(r) && r.cursor == a.cursor && id !in r.pool
  {
    IssueAllMarks(Handing(a, id, timedOut), cs, now);
  }

  lemma {:induction false} ScanMarks(a: Agent, n: int, capped: bool, script: seq<seq<Cmd>>, now: int)
    requires Marked(a) && ScanFits(a, n, capped, script, now)
    ensures Marked(Scan(a, n, capped, script, now))
    decreases n
  {
    if 0 < n && (capped ==> a.cursor <= a.nextId) && (a.cursor in a.pool ==> Overdue(a.pool, a.cursor, now)) {
      var a1, later := ScanTurn(a, n, capped, script, now);
      if a.cursor in a.pool { CompleteMarks(a, a.cursor, true, First(script), now); }
      assert Marked(a1);
      ScanMarks(a1, n - 1, capped, later, now);
    }
  }

  lemma {:induction false} ScanShape(a: Agent, n: int, script: seq<seq<Cmd>>, now: int)
    requires IdsBelow(a) && ScanFits(a, n, true, script, now)
    ensures var r := Scan(a, n, true, script, now);
            && a.cursor <= r.cursor && (a.cursor <= a.nextId ==> r.cursor <= r.nextId + 1)
            && (forall id :: id in r.pool ==> r.cursor <= id || id < a.cursor)
            && (forall id :: id in r.pool && id !in a.pool ==> a.nextId <= id)
    decreases n
  {
    if 0 < n && a.cursor <= a.nextId && (a.cursor in a.pool ==> Overdue(a.pool, a.cursor, now)) {
      var a1, later := ScanTurn(a, n, true, script, now);
      ScanShape(a1, n - 1, later, now);
      if a.cursor == a.nextId { assert Scan(a1, n - 1, true, later, now) == a1; }
    }
  }

  /** Neither the ids nor the cursor wrap in the step. */
  ghost predicate Fits(a: Agent, s: Step) {
    Apply(a, s).nextId + 1 < ID_SPACE && (s.SCheck? ==> CheckFits(a, s.n, s.script, s.now))
  }

  ghost predicate RunFits(a: Agent, steps: seq<Step>)
    decreases |steps|
  {
    steps == [] || (Fits(a, steps[0]) && RunFits(Apply(a, steps[0]), steps[1..]))
  }

  lemma {:induction false} StepShape(a: Agent, s: Step)
    requires IdsBelow(a) && Fits(a, s)
    ensures var r := Apply(a, s);
            IdsBelow(r) && a.cursor <= r.cursor && (NothingPassed(a) ==> NothingPassed(r))
  {
    match s
    case SCommand(c, internal, now) =>
    case SReply(id, cs, now) =>
      if id in a.pool { CompleteShape(a, id, false, if a.pool[id].internal then [] else cs, now); }
    case SCheck(n, script, now) =>
      if a.nextId < a.cursor {
        AheadDeliversNothing(a, n, script, now);
      } else {
        ScanGrows(a, n, true, script, now);
        ScanShape(a, n, script, now);
      }
  }

  lemma {:induction false} StepMarks(a: Agent, s: Step)
    requires Marked(a) && Fits(a, s)
    ensures Marked(Apply(a, s))
  {
    match s
    case SCommand(c, internal, now) =>
    case SReply(id, cs, now) =>
      if id in a.pool { CompleteMarks(a, id, false, if a.pool[id].internal then [] else cs, now); }
    case SCheck(n, script, now) =>
      ScanMarks(a, n, a.cursor <= a.nextId, script, now);
      if a.cursor <= a.nextId { ScanShape(a, n, script, now); }
  }

  lemma {:induction false} RunMarks(a: Agent, steps: seq<Step>)
    requires Marked(a) && RunFits(a, steps)
    ensures Marked(Run(a, steps))
    decreases |steps|
  {
    if steps != [] {
      StepMarks(a, steps[0]);
      RunMarks(Apply(a, steps[0]), steps[1..]);
    }
  }

  /**
    In every run from the constructor: a pending command is behind the cursor, where no check
    looks, if and only if the cursor was ahead of its id when it was issued.
   */
  lemma {:induction false} PendingIsPassedExactlyWhen(steps: seq<Step>, id: nat)
    requires RunFits(Start(), steps) && id in Run(Start(), steps).pool
    ensures var a := Run(Start(), steps);
            1 <= id <= |a.marks| && (id < a.cursor <==> id < a.marks[id - 1])
  {
    RunMarks(Start(), steps);
  }

  /** From a state whose cursor has passed no pending entry, in every run, it never does. */
  lemma {:induction false} CursorNeverPassesPending(a: Agent, steps: seq<Step>)
    requires IdsBelow(a) && NothingPassed(a) && RunFits(a, steps)
    ensures NothingPassed(Run(a, steps))
    decreases |steps|
  {
    if steps != [] {
      StepShape(a, steps[0]);
      CursorNeverPassesPending(Apply(a, steps[0]), steps[1..]);
    }
  }

  // ---------------------------------------------------------------- which commands time out

  ghost predicate ClockRuns(from: int, steps: seq<Step>)
    decreases |steps|
  {
    steps == [] || (from <= steps[0].now && ClockRuns(steps[0].now, steps[1..]))
  }

  ghost function LastNow(from: int, steps: seq<Step>): (now: int)
    decreases |steps|
  {
    if steps == [] then from else LastNow(steps[0].now, steps[1..])
  }

  lemma {:induction false} ScanInOrder(a: Agent, n: int, capped: bool, script: seq<seq<Cmd>>, now: int)
    requires InOrder(a, now)
    ensures InOrder(Scan(a, n, capped, script, now), now)
    decreases n
  {
    if n <= 0 || (capped && a.nextId < a.cursor) {
    } else if a.cursor !in a.pool {
      ScanInOrder(Moved(a), n - 1, capped, script, now);
    } else if Overdue(a.pool, a.cursor, now) {
      ExpireShape(a, First(script), now);
      CompletedInOrder(a, Expire(a, First(script), now), a.cursor, true, now);
      ScanInOrder(Expire(a, First(script), now), n - 1, capped, Later(script), now);
    }
  }

  lemma {:induction false} StepInOrder(a: Agent, s: Step, from: int)
    requires InOrder(a, from) && from <= s.now
    ensures InOrder(Apply(a, s), s.now)
  {
    assert InOrder(a, s.now);
    match s
    case SCommand(c, internal, now) =>
    case SReply(id, cs, now) =>
      if id in a.pool {
        var cs' := if a.pool[id].internal then [] else cs;
        CompleteShape(a, id, false, cs', now);
        CompletedInOrder(a, Complete(a, id, false, cs', now), id, false, now);
      }
    case SCheck(n, script, now) => ScanInOrder(a, n, a.cursor <= a.nextId, script, now);
  }

  lemma {:induction false} RunInOrder(a: Agent, from: int, steps: seq<Step>)
    requires InOrder(a, from) && ClockRuns(from, steps)
    ensures InOrder(Run(a, steps), LastNow(from, steps))
    decreases |steps|
  {
    if steps != [] {
      StepInOrder(a, steps[0], from);
      RunInOrder(Apply(a, steps[0]), steps[0].now, steps[1..]);
    }
  }

  ghost predicate TimesOut(done: seq<Done>, id: nat) {
    Done(id, true) in done
  }

  // The cursor was not ahead of `id` when it was issued.
  ghost predicate IssuedInReach(a: Agent, id: nat) {
    1 <= id <= |a.marks| && a.marks[id - 1] <= id
  }

  /**
    In every run from the constructor whose clock does not go back, a check whose budget reaches
    the id counter times out exactly those pending commands that are more than 5 seconds old and
    were issued in reach of the cursor.
   */
  lemma {:induction false} OverdueTimesOutExactlyWhen(
    steps: seq<Step>, from: int, n: nat, script: seq<seq<Cmd>>, now: int, id: nat)
    requires RunFits(Start(), steps) && ClockRuns(from, steps) && LastNow(from, steps) <= now
    requires var a := Run(Start(), steps); a.nextId <= a.cursor + n && CheckFits(a, n, script, now)
    ensures var a := Run(Start(), steps);
            var r := Check(a, n, script, now);
            && a.done <= r.done
            && (TimesOut(r.done[|a.done|..], id)
                <==> id in a.pool && a.pool[id].time + 5 < now && IssuedInReach(a, id))
  {
    var a := Run(Start(), steps);
    RunInOrder(Start(), from, steps);
    RunMarks(Start(), steps);
    assert InOrder(a, now);
    ScanIsFullScan(a, n, a.cursor <= a.nextId, script, now);
    var ids := OverdueIds(a.pool, a.cursor, a.cursor + n, now);
    assert (a.done + AsTimedOut(ids))[|a.done|..] == AsTimedOut(ids);
    TimedOutMembers(ids, id);
    OverdueMembers(a.pool, a.cursor, a.cursor + n, now, id);
  }

  lemma {:induction false} ScanSparesPassed(
    a: Agent, n: int, capped: bool, script: seq<seq<Cmd>>, now: int, id: nat)
    requires IdsBelow(a) && id < a.cursor && ScanFits(a, n, capped, script, now)
    ensures TimesOut(Scan(a, n, capped, script, now).done, id) ==> TimesOut(a.done, id)
    decreases n
  {
    if 0 < n && (capped ==> a.cursor <= a.nextId) && (a.cursor in a.pool ==> Overdue(a.pool, a.cursor, now)) {
      var a1, later := ScanTurn(a, n, capped, script, now);
      ScanSparesPassed(a1, n - 1, capped, later, now, id);
    }
  }

  lemma {:induction false} StepSparesPassed(a: Agent, s: Step, id: nat)
    requires IdsBelow(a) && Fits(a, s) && id < a.cursor
    ensures TimesOut(Apply(a, s).done, id) ==> TimesOut(a.done, id)
  {
    match s
    case SCommand(c, internal, now) =>
    case SReply(j, cs, now) =>
      if j in a.pool { CompleteShape(a, j, false, if a.pool[j].internal then [] else cs, now); }
    case SCheck(n, script, now) => ScanSparesPassed(a, n, a.cursor <= a.nextId, script, now, id);
  }

  /** An id the cursor has passed, pending or yet to be issued, does not time out in any run. */
  lemma {:induction false} PassedNeverTimesOut(a: Agent, steps: seq<Step>, id: nat)
    requires IdsBelow(a) && RunFits(a, steps) && id < a.cursor && !TimesOut(a.done, id)
    ensures !TimesOut(Run(a, steps).done, id)
    decreases |steps|
  {
    if steps != [] {
      StepShape(a, steps[0]);
      StepSparesPassed(a, steps[0], id);
      PassedNeverTimesOut(Apply(a, steps[0]), steps[1..], id);
    }
  }

  // ---------------------------------------------------------------- the life of one command

  // Nothing has happened to the pending command `id`, or it is more than 5 seconds old and has timed out.
  ghost predicate Fate(a: Agent, r: Agent, id: nat, now: int)
    requires id in a.pool
  {
    && IdsBelow(r) && a.done <= r.done
    && if id in r.pool then r.pool[id] == a.pool[id] && (TimesOut(r.done, id) ==> TimesOut(a.done, id))
       else TimesOut(r.done, id) && a.pool[id].time + 5 < now
  }

  lemma {:induction false} ScanFate(a: Agent, n: int, capped: bool, script: seq<seq<Cmd>>, now: int, id: nat)
    requires IdsBelow(a) && id in a.pool
    ensures Fate(a, Scan(a, n, capped, script, now), id, now)
    decreases n
  {
    if n <= 0 || (capped && a.nextId < a.cursor) {
    } else if a.cursor !in a.pool {
      ScanFate(Moved(a), n - 1, capped, script, now, id);
    } else if Overdue(a.pool, a.cursor, now) {
      var a1 := Expire(a, First(script), now);
      ExpireShape(a, First(script), now);
      if id == a.cursor {
        assert a1.done[|a.done|] == Done(id, true);
        ScanGone(a1, n - 1, capped, Later(script), now, id);
      } else {
        ScanFate(a1, n - 1, capped, Later(script), now, id);
      }
    }
  }

  // A completed id does not come back.
  ghost predicate Gone(a: Agent, id: nat) {
    IdsBelow(a) && id < a.nextId && id !in a.pool
  }

  lemma {:induction false} ScanGone(a: Agent, n: int, capped: bool, script: seq<seq<Cmd>>, now: int, id: nat)
    requires Gone(a, id)
    ensures var r := Scan(a, n, capped, script, now); Gone(r, id) && a.done <= r.done
    decreases n
  {
    if n <= 0 || (capped && a.nextId < a.cursor) {
    } else if a.cursor !in a.pool {
      ScanGone(Moved(a), n - 1, capped, script, now, id);
    } else if Overdue(a.pool, a.cursor, now) {
      ExpireShape(a, First(script), now);
      ScanGone(Expire(a, First(script), now), n - 1, capped, Later(script), now, id);
    }
  }

  lemma {:induction false} StepFate(a: Agent, s: Step, id: nat)
    requires IdsBelow(a) && id in a.pool && !(s.SReply? && s.id == id)
    ensures Fate(a, Apply(a, s), id, s.now) && (!s.SCheck? ==> id in Apply(a, s).pool)
  {
    match s
    case SCommand(c, internal, now) =>
    case SReply(j, cs, now) =>
      if j in a.pool { CompleteShape(a, j, false, if a.pool[j].internal then [] else cs, now); }
    case SCheck(n, script, now) => ScanFate(a, n, a.cursor <= a.nextId, script, now, id);
  }

  lemma {:induction false} StepGone(a: Agent, s: Step, id: nat)
    requires Gone(a, id)
    ensures Gone(Apply(a, s), id) && a.done <= Apply(a, s).done
  {
    match s
    case SCommand(c, internal, now) =>
    case SReply(j, cs, now) =>
      if j in a.pool { CompleteShape(a, j, false, if a.pool[j].internal then [] else cs, now); }
    case SCheck(n, script, now) => ScanGone(a, n, a.cursor <= a.nextId, script, now, id);
  }

  lemma {:induction false} RunGone(a: Agent, steps: seq<Step>, id: nat)
    requires Gone(a, id)
    ensures Gone(Run(a, steps), id) && a.done <= Run(a, steps).done
    decreases |steps|
  {
    if steps != [] {
      StepGone(a, steps[0], id);
      RunGone(Apply(a, steps[0]), steps[1..], id);
    }
  }

  // No reply to the command comes in.
  predicate Unanswered(steps: seq<Step>, id: nat) {
    forall k :: 0 <= k < |steps| ==> !(steps[k].SReply? && steps[k].id == id)
  }

  lemma {:induction false} ClockOnly(from: int, steps: seq<Step>)
    requires ClockRuns(from, steps)
    ensures from <= LastNow(from, steps)
    decreases |steps|
  {
    if steps != [] { ClockOnly(steps[0].now, steps[1..]); }
  }

  lemma {:induction false} RunFate(a: Agent, steps: seq<Step>, from: int, id: nat)
    requires IdsBelow(a) && id in a.pool && ClockRuns(from, steps) && Unanswered(steps, id)
    ensures Fate(a, Run(a, steps), id, LastNow(from, steps))
    decreases |steps|
  {
    if steps != [] {
      var a1 := Apply(a, steps[0]);
      StepFate(a, steps[0], id);
      ClockOnly(steps[0].now, steps[1..]);
      if id in a1.pool {
        assert Unanswered(steps[1..], id);
        RunFate(a1, steps[1..], steps[0].now, id);
      } else {
        var k :| 0 <= k < |a1.done| && a1.done[k] == Done(id, true);
        StepBelow(a, steps[0]);
        RunGone(a1, steps[1..], id);
        assert Run(a, steps).done[k] == Done(id, true);
      }
    }
  }

  lemma {:induction false} StepBelow(a: Agent, s: Step)
    requires IdsBelow(a)
    ensures IdsBelow(Apply(a, s)) && a.nextId <= Apply(a, s).nextId
  {
    match s
    case SCommand(c, internal, now) =>
    case SReply(j, cs, now) =>
      if j in a.pool { CompleteShape(a, j, false, if a.pool[j].internal then [] else cs, now); }
    case SCheck(n, script, now) => ScanGrows(a, n, a.cursor <= a.nextId, script, now);
  }

  lemma {:induction false} RunBelow(a: Agent, steps: seq<Step>)
    requires IdsBelow(a) && RunFits(a, steps)
    ensures IdsBelow(Run(a, steps)) && a.cursor <= Run(a, steps).cursor && a.nextId <= Run(a, steps).nextId
    decreases |steps|
  {
    if steps != [] {
      StepShape(a, steps[0]);
      StepBelow(a, steps[0]);
      RunBelow(Apply(a, steps[0]), steps[1..]);
    }
  }

  /** A pending id that the cursor has not passed is not passed as long as it is pending. */
  lemma {:induction false} StepInReach(a: Agent, s: Step, id: nat)
    requires IdsBelow(a) && Fits(a, s) && id in a.pool && a.cursor <= id && id in Apply(a, s).pool
    ensures Apply(a, s).cursor <= id
  {
    match s
    case SCommand(c, internal, now) =>
    case SReply(j, cs, now) =>
      if j in a.pool { CompleteShape(a, j, false, if a.pool[j].internal then [] else cs, now); }
    case SCheck(n, script, now) =>
      ScanShape(a, n, script, now);
      ScanGrows(a, n, true, script, now);
  }

  lemma {:induction false} RunInReach(a: Agent, steps: seq<Step>, from: int, id: nat)
    requires IdsBelow(a) && RunFits(a, steps) && ClockRuns(from, steps) && Unanswered(steps, id)
    requires id in a.pool && a.cursor <= id && id in Run(a, steps).pool
    ensures Run(a, steps).cursor <= id
    decreases |steps|
  {
    if steps != [] {
      var a1 := Apply(a, steps[0]);
      StepFate(a, steps[0], id);
      StepBelow(a, steps[0]);
      if id in a1.pool {
        StepInReach(a, steps[0], id);
        assert Unanswered(steps[1..], id);
        RunInReach(a1, steps[1..], steps[0].now, id);
      } else {
        RunGone(a1, steps[1..], id);
      }
    }
  }

  /** A check whose budget reaches the id counter, on a pending command the cursor has not passed. */
  lemma {:induction false} CheckDecides(a: Agent, n: nat, script: seq<seq<Cmd>>, now: int, id: nat)
    requires InOrder(a, now) && a.nextId <= a.cursor + n && CheckFits(a, n, script, now)
    requires id in a.pool && a.cursor <= id && a.pool[id].time + 5 < now
    ensures TimesOut(Check(a, n, script, now).done, id)
  {
    ScanIsFullScan(a, n, a.cursor <= a.nextId, script, now);
    var ids := OverdueIds(a.pool, a.cursor, a.cursor + n, now);
    OverdueMembers(a.pool, a.cursor, a.cursor + n, now, id);
    TimedOutMembers(ids, id);
    var k :| 0 <= k < |ids| && AsTimedOut(ids)[k] == Done(id, true);
    assert (a.done + AsTimedOut(ids))[|a.done| + k] == Done(id, true);
  }

  /** The run up to a command and what follows it. */
  lemma {:induction false} RunAround(a: Agent, before: seq<Step>, s: Step, after: seq<Step>, from: int)
    requires var all := before + [s] + after; RunFits(a, all) && ClockRuns(from, all)
    ensures RunFits(a, before) && ClockRuns(from, before) && Fits(Run(a, before), s)
    ensures RunFits(Apply(Run(a, before), s), after) && ClockRuns(s.now, after)
    ensures Run(a, before + [s] + after) == Run(Apply(Run(a, before), s), after)
    ensures LastNow(from, before + [s] + after) == LastNow(s.now, after)
    decreases |before|
  {
    var all := before + [s] + after;
    if before == [] {
      assert all[0] == s && all[1..] == after;
    } else {
      assert all[0] == before[0] && all[1..] == before[1..] + [s] + after;
      RunAround(Apply(a, before[0]), before[1..], s, after, before[0].now);
    }
  }

  /**
    The life of a command, in every run from the constructor whose clock does not go back: issued
    at time t and not answered, it has timed out after a check whose budget reaches the id counter
    if and only if it was issued in reach of the cursor and the check is more than 5 seconds later;
    otherwise it is still pending.
   */
  lemma {:induction false} UnansweredTimesOutExactlyWhen(
    before: seq<Step>, c: Cmd, internal: bool, t: int, after: seq<Step>, from: int,
    n: nat, script: seq<seq<Cmd>>, now: int)
    requires var all := before + [SCommand(c, internal, t)] + after;
             && c.accepted && RunFits(Start(), all) && ClockRuns(from, all) && LastNow(from, all) <= now
             && Unanswered(after, Run(Start(), before).nextId)
             && var a := Run(Start(), all); a.nextId <= a.cursor + n && CheckFits(a, n, script, now)
    ensures var issued := Run(Start(), before);
            var r := Check(Run(Start(), before + [SCommand(c, internal, t)] + after), n, script, now);
            && (TimesOut(r.done, issued.nextId) <==> issued.cursor <= issued.nextId && t + 5 < now)
            && (issued.nextId in r.pool <==> !TimesOut(r.done, issued.nextId))
  {
    var s := SCommand(c, internal, t);
    RunAround(Start(), before, s, after, from);
    var a0 := Run(Start(), before);
    RunBelow(Start(), before);
    IssuedOnce(before);
    RunInOrder(Start(), from, before + [s] + after);
    LifeFrom(a0, s, after, n, script, now);
  }

  lemma {:induction false} IssuedOnce(steps: seq<Step>)
    ensures !TimesOut(Run(Start(), steps).done, Run(Start(), steps).nextId)
  {
    assert forall id :: !IsDone(Start(), id);
    RunKeeps(Start(), steps);
    var a := Run(Start(), steps);
    if TimesOut(a.done, a.nextId) { assert IsDone(a, a.nextId); }
  }

  lemma {:induction false} LifeFrom(
    a0: Agent, s: Step, after: seq<Step>, n: nat, script: seq<seq<Cmd>>, now: int)
    requires IdsBelow(a0) && s.SCommand? && s.c.accepted && !TimesOut(a0.done, a0.nextId)
    requires var a1 := Apply(a0, s);
             && RunFits(a1, after) && ClockRuns(s.now, after) && LastNow(s.now, after) <= now
             && Unanswered(after, a0.nextId) && InOrder(Run(a1, after), LastNow(s.now, after))
             && var a := Run(a1, after); a.nextId <= a.cursor + n && CheckFits(a, n, script, now)
    ensures var r := Check(Run(Apply(a0, s), after), n, script, now);
            && (TimesOut(r.done, a0.nextId) <==> a0.cursor <= a0.nextId && s.now + 5 < now)
            && (a0.nextId in r.pool <==> !TimesOut(r.done, a0.nextId))
  {
    var id, a1 := a0.nextId, Apply(a0, s);
    var a := Run(a1, after);
    var check := SCheck(n, script, now);
    RunFate(a1, after, s.now, id);
    if id in a.pool {
      StepFate(a, check, id);
      if a0.cursor <= id {
        RunInReach(a1, after, s.now, id);
        if s.now + 5 < now { CheckDecides(a, n, script, now, id); }
      } else {
        RunBelow(a1, after);
        ScanSparesPassed(a, n, a.cursor <= a.nextId, script, now, id);
      }
    } else {
      if id < a0.cursor { PassedNeverTimesOut(a1, after, id); }
      RunBelow(a1, after);
      StepGone(a, check, id);
    }
  }

  /** The constructor starts the cursor at 5 and the ids at 1: in no run do commands 1 to 4 time out. */
  lemma {:induction false} FirstFourNeverTimeOut(steps: seq<Step>, id: nat)
    requires RunFits(Start(), steps) && 1 <= id <= 4
    ensures !TimesOut(Run(Start(), steps).done, id)
  {
    PassedNeverTimesOut(Start(), steps, id);
  }

  predicate NoChecks(steps: seq<Step>) {
    forall k :: 0 <= k < |steps| ==> !steps[k].SCheck?
  }

  lemma {:induction false} CursorStays(a: Agent, steps: seq<Step>)
    requires NoChecks(steps) && IdsBelow(a)
    ensures Run(a, steps).cursor == a.cursor
    decreases |steps|
  {
    if steps != [] {
      StepBelow(a, steps[0]);
      if steps[0].SReply? && steps[0].id in a.pool {
        CompleteShape(a, steps[0].id, false, if a.pool[steps[0].id].internal then [] else steps[0].cs, steps[0].now);
      }
      CursorStays(Apply(a, steps[0]), steps[1..]);
    }
  }

  /** Before the first check exactly the commands from the fifth on are issued in reach of the cursor. */
  lemma {:induction false} FifthIsInReach(before: seq<Step>)
    requires NoChecks(before)
    ensures var a := Run(Start(), before); a.cursor <= a.nextId <==> 5 <= a.nextId
  {
    CursorStays(Start(), before);
  }

  /** A check before the first command puts as many more ids out of reach as its budget. */
  lemma {:induction false} FirstCheckPutsMoreOutOfReach(
    n: nat, script: seq<seq<Cmd>>, now: int, steps: seq<Step>, id: nat)
    requires RunFits(Start(), [SCheck(n, script, now)] + steps) && 1 <= id < 5 + n
    ensures !TimesOut(Run(Start(), [SCheck(n, script, now)] + steps).done, id)
  {
    var s := SCheck(n, script, now);
    assert ([s] + steps)[0] == s && ([s] + steps)[1..] == steps;
    AheadDeliversNothing(Start(), n, script, now);
    PassedNeverTimesOut(Apply(Start(), s), steps, id);
  }

  // ---------------------------------------------------------------- agents that never time out

  /** At every check of the run the id counter is behind the cursor. */
  ghost predicate BehindAtChecks(a: Agent, steps: seq<Step>)
    decreases |steps|
  {
    steps == []
    || ((steps[0].SCheck? ==> a.nextId < a.cursor) && BehindAtChecks(Apply(a, steps[0]), steps[1..]))
  }

  /** A run whose id counter is behind the cursor at every check times nothing out, however long nothing is answered. */
  lemma {:induction false} BehindNothingTimesOut(a: Agent, steps: seq<Step>, id: nat)
    requires IdsBelow(a) && RunFits(a, steps) && BehindAtChecks(a, steps) && !TimesOut(a.done, id)
    ensures !TimesOut(Run(a, steps).done, id)
    decreases |steps|
  {
    if steps != [] {
      var s := steps[0];
      StepShape(a, s);
      match s {
        case SCommand(c, internal, now) =>
        case SReply(j, cs, now) =>
          if j in a.pool { CompleteShape(a, j, false, if a.pool[j].internal then [] else cs, now); }
        case SCheck(n, script, now) => AheadDeliversNothing(a, n, script, now);
      }
      BehindNothingTimesOut(Apply(a, s), steps[1..], id);
    }
  }

  /**
    A condition on the schedule alone: with the cursor `lead` ids ahead, the budgets of the checks
    keep ahead of the commands between them.
   */
  predicate Outpaced(lead: int, steps: seq<Step>)
    decreases |steps|
  {
    steps == [] ||
    match steps[0]
    case SCommand(_, _, _) => Outpaced(lead - 1, steps[1..])
    case SReply(_, cs, _) => Outpaced(lead - |cs|, steps[1..])
    case SCheck(n, _, _) => 0 < lead && Outpaced(lead + if 0 < n then n else 0, steps[1..])
  }

  lemma {:induction false} IssueAllCounts(a: Agent, cs: seq<Cmd>, now: int)
    ensures IssueAll(a, cs, now).nextId <= a.nextId + |cs| && IssueAll(a, cs, now).cursor == a.cursor
    decreases |cs|
  {
    if cs != [] { IssueAllCounts(Issue(a, cs[0], false, now), cs[1..], now); }
  }

  lemma {:induction false} OutpacedStaysBehind(a: Agent, lead: int, steps: seq<Step>)
    requires IdsBelow(a) && RunFits(a, steps) && Outpaced(lead, steps) && lead <= a.cursor - a.nextId
    ensures BehindAtChecks(a, steps)
    decreases |steps|
  {
    if steps != [] {
      StepShape(a, steps[0]);
      match steps[0] {
        case SCommand(c, internal, now) => OutpacedStaysBehind(Apply(a, steps[0]), lead - 1, steps[1..]);
        case SReply(id, cs, now) =>
          if id in a.pool { IssueAllCounts(Handing(a, id, false), if a.pool[id].internal then [] else cs, now); }
          OutpacedStaysBehind(Apply(a, steps[0]), lead - |cs|, steps[1..]);
        case SCheck(n, script, now) =>
          AheadDeliversNothing(a, n, script, now);
          OutpacedStaysBehind(Apply(a, steps[0]), lead + if 0 < n then n else 0, steps[1..]);
      }
    }
  }

  /**
    In every run from the constructor in which the commands between two checks are no more than
    the cursor's lead, which starts at 4 and grows by every budget, no command ever times out.
   */
  lemma {:induction false} PolledAgentNeverTimesOut(steps: seq<Step>, id: nat)
    requires RunFits(Start(), steps) && Outpaced(4, steps)
    ensures !TimesOut(Run(Start(), steps).done, id)
  {
    OutpacedStaysBehind(Start(), 4, steps);
    BehindNothingTimesOut(Start(), steps, id);
  }
}
