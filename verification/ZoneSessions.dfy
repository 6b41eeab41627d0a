/**
  The session table of the zone agent (rgtd/zone/account/SessionMgr.cpp), fed with the reports of a
  gate in order: CONNECTED enters the role with its slot index, and CLOSE takes it out if it names
  that index.
 */
module ZoneSessions {
  import opened Gate
  import opened GateTable
  import opened GateSessions
  import opened AgentMail

  // GetRoleID packs the user and the area.
  type RoleOf = (int, int) -> int

  /** CreateSession and StopSession, for reports of one gate. */
  function Enter(role: RoleOf, t: map<int, int>, r: Report): (t': map<int, int>) {
    var k := role(r.uid, r.area);
    match r.body
    case Opened => t[k := r.idx]
    case Closed(_) => if k in t && t[k] == r.idx then t - {k} else t
    case Data(_) => t
  }

  function Table(role: RoleOf, log: seq<Logged>): (t: map<int, int>)
    decreases |log|
  {
    if log == [] then map[] else Enter(role, Table(role, log[..|log| - 1]), log[|log| - 1].report)
  }

  /** The index of each role's latest CONNECTED, whatever was reported after it. */
  function Latest(role: RoleOf, log: seq<Logged>): (t: map<int, int>)
    decreases |log|
  {
    if log == [] then map[]
    else
      var t, r := Latest(role, log[..|log| - 1]), log[|log| - 1].report;
      if r.body.Opened? then t[role(r.uid, r.area) := r.idx] else t
  }

  /** The reports that go to a channel. */
  function OnChannel(log: seq<Logged>, dst: int): (r: seq<Logged>)
    decreases |log|
  {
    if log == [] then []
    else
      var last := log[|log| - 1];
      OnChannel(log[..|log| - 1], dst) + if last.report.dst == dst then [last] else []
  }

  lemma {:induction false} ChannelIsIndexed(log: seq<Logged>, dst: int)
    requires Indexed(log)
    ensures Indexed(OnChannel(log, dst))
    decreases |log|
  {
    if log != [] {
      var init := log[..|log| - 1];
      assert forall k :: 0 <= k < |init| ==> init[k] == log[k];
      ChannelIsIndexed(init, dst);
    }
  }

  // CONNECTED names a slot above 0, and CLOSE names slot 0.
  ghost predicate Indexed(log: seq<Logged>) {
    forall k :: 0 <= k < |log| ==>
      (log[k].report.body.Opened? ==> 0 < log[k].report.idx) && (log[k].report.body.Closed? ==> log[k].report.idx == 0)
  }

  lemma {:induction false} EndedIndexed(cfg: Config, tr: seq<Report>, rep: Report)
    requires Ended(cfg, tr) && rep in tr
    ensures (rep.body.Opened? ==> 0 < rep.idx) && (rep.body.Closed? ==> rep.idx == 0)
  {
    var n := |tr| - 1;
    var k :| 0 <= k < |tr| && tr[k] == rep;
    if k < n {
      var idx :| 0 < idx && Opening(tr[..n], idx);
      assert tr[..n][k] == rep;
    }
  }

  lemma {:induction false} LogIsIndexed(cfg: Config, g: State)
    requires Inv(g) && TracesOk(cfg, g)
    ensures Indexed(g.hist.log)
  {
    forall k | 0 <= k < |g.hist.log|
      ensures var r := g.hist.log[k].report; (r.body.Opened? ==> 0 < r.idx) && (r.body.Closed? ==> r.idx == 0)
    {
      var s := g.hist.log[k].session;
      LoggedIsTraced(g.hist.log, k);
      if LiveSession(g, s) {
        var i :| Serves(g, i, s);
        assert Fits(cfg, g.slots[i], i, Trace(g.hist.log, s));
      } else {
        EndedIndexed(cfg, Trace(g.hist.log, s), g.hist.log[k].report);
      }
    }
  }

  lemma {:induction false} TableIsLatest(role: RoleOf, log: seq<Logged>)
    requires Indexed(log)
    ensures Table(role, log) == Latest(role, log)
    ensures forall k :: k in Table(role, log) ==> 0 < Table(role, log)[k]
    decreases |log|
  {
    if log != [] {
      var init := log[..|log| - 1];
      assert forall k :: 0 <= k < |init| ==> init[k] == log[k];
      TableIsLatest(role, init);
    }
  }

  /**
    In every run of the gate, the table of the zone on any channel never loses a role: no CLOSE
    names the index its session was entered with, so every role that was ever connected stays, at
    the index of its latest CONNECTED.
   */
  lemma {:induction false} SessionsAreNeverStopped(
    role: RoleOf, cfg: Config, max: nat, ms: int, steps: seq<Step>, dst: int)
    requires CanRun(cfg, Initial(max, ms), steps)
    ensures var log := OnChannel(Run(cfg, Initial(max, ms), steps).hist.log, dst);
            Table(role, log) == Latest(role, log)
  {
    InitialInv(max, ms);
    RunKeepsTraces(cfg, Initial(max, ms), steps);
    LogIsIndexed(cfg, Run(cfg, Initial(max, ms), steps));
    ChannelIsIndexed(Run(cfg, Initial(max, ms), steps).hist.log, dst);
    TableIsLatest(role, OnChannel(Run(cfg, Initial(max, ms), steps).hist.log, dst));
  }
}
