/**
  The database agent of db/MysqlAgent.cpp and db/MysqlProxy.cpp: the main thread queues requests
  and polls responses, one worker thread takes requests off, executes them on its connection and
  queues the responses.  The threads interleave at the granularity of the source's statements:
  the size test and the push of Request, the emptiness test and the pop of GetRequest, the wait,
  the close test, the dispatch and the response are separate steps.

  The proxy builds every response in one field that it reuses, so what a statement does not
  overwrite stays from the response before.
 */
module Mysql {
  import opened Values

  const REQ_SELECT := 1
  const REQ_UPDATE := 2
  const REQ_DELETE := 3
  const REQ_INSERT := 4
  const REQ_CREATE_TB := 6

  const RESULT_OK := 0
  const RESULT_NO_DATA := 1
  const RESULT_ALREADY_EXIST := 2
  const RESULT_GET_NO_PK := 4
  const RESULT_NO_META := 5
  const RESULT_STORE_RESULT_ERR := 6
  const RESULT_SQL_GEN_ERR := 7
  const RESULT_UNKNOWN := 0x7F
  const RESULT_SQL_EXE_ERR := 0x7FFF

  const ER_DUP_ENTRY := 1062

  datatype Request = Request(table: string, op: int, wher: string, cb: int)

  datatype Field = Field(name: string, value: int)

  datatype Response = Response(table: string, op: int, data: seq<Field>, cb: int, ret: int)

  datatype Column = Column(name: string, text: string)

  // What the database makes of one statement.
  datatype Db = Db(generated: bool, executed: bool, errno: nat, stored: bool, row: Option<seq<Column>>)

  // A table's columns, with the conversion of each one's text.
  type Meta = map<string, string -> int>
  type Metas = map<string, Meta>

  // ---------------------------------------------------------------- one request

  /** SetFieldValue on the field of the column before: an unknown column changes its name only. */
  function SetField(meta: Meta, f: Field, c: Column): (r: Field) {
    if c.name in meta then Field(c.name, meta[c.name](c.text)) else f.(name := c.name)
  }

  /** The fields of a row from column i on; `f` is the field of the column before. */
  function Fields(meta: Meta, cols: seq<Column>, f: Field, i: nat): (r: seq<Field>)
    requires i <= |cols|
    ensures |r| == |cols| - i
    decreases |cols| - i
  {
    if i == |cols| then []
    else
      var g := SetField(meta, f, cols[i]);
      [g] + Fields(meta, cols, g, i + 1)
  }

  // MysqlField() before its first use
  const BLANK := Field("", 0)

  /** Select: the result code and the data vector, which is `data` unless a result set was stored. */
  function Select(metas: Metas, q: Request, db: Db, data: seq<Field>): (r: (int, seq<Field>)) {
    if q.table !in metas then (RESULT_NO_META, data)
    else if q.wher == "" then (RESULT_GET_NO_PK, data)
    else if !db.generated then (RESULT_SQL_GEN_ERR, data)
    else if !db.executed then (RESULT_SQL_EXE_ERR, data)
    else if !db.stored then (RESULT_STORE_RESULT_ERR, data)
    else
      match db.row
      case None => (RESULT_NO_DATA, [])
      case Some(cols) => (RESULT_OK, Fields(metas[q.table], cols, BLANK, 0))
  }

  /** Insert, Update and Delete differ in how a failed statement is coded. */
  function Write(metas: Metas, q: Request, db: Db): (ret: int) {
    if q.table !in metas then RESULT_NO_META
    else if !db.generated then RESULT_SQL_GEN_ERR
    else if db.executed then RESULT_OK
    else if q.op != REQ_INSERT then RESULT_SQL_EXE_ERR
    else if db.errno == ER_DUP_ENTRY then RESULT_ALREADY_EXIST
    else RESULT_SQL_EXE_ERR + db.errno
  }

  predicate KnownOp(op: int) {
    op == REQ_SELECT || op == REQ_UPDATE || op == REQ_DELETE || op == REQ_INSERT || op == REQ_CREATE_TB
  }

  /** DispatchReq: the response, built over the data of the one before. */
  function Dispatch(metas: Metas, q: Request, db: Db, data: seq<Field>): (r: Response) {
    if q.op == REQ_SELECT then
      var (ret, rows) := Select(metas, q, db, data);
      Response(q.table, q.op, rows, q.cb, ret)
    else if q.op == REQ_CREATE_TB then
      Response(q.table, q.op, data, q.cb,
               if q.table !in metas then RESULT_UNKNOWN else if db.executed then 0 else -1)
    else Response(q.table, q.op, data, q.cb, Write(metas, q, db))
  }

  // ---------------------------------------------------------------- the threads

  datatype Worker = Top | Testing | Popping | Waiting | Dispatching(q: Request) | Responding | Exited

  datatype State = State(accepted: seq<Request>, checked: Option<Request>, reqQueue: seq<Request>,
                         worker: Worker, dbs: seq<Db>, rsp: Response,
                         rspQueue: seq<Response>, delivered: seq<Response>, close: bool)

  datatype Step =
    | PCheck(q: Request)  // Request: the unlocked size test
    | PPush               // Request: the push under the lock
    | Poll                // Polling: one response to the listener
    | Stop
    | WTop                // Working: while(!close)
    | WTest               // GetRequest: the unlocked emptiness test
    | WPop                // GetRequest: front and pop under the lock
    | WWake               // WaitRequest returns; CHECK_CLOSE
    | WDispatch(db: Db)   // DispatchReq
    | WRespond            // Response

  /** Which steps the threads' positions allow; PPush waits for a test that passed. */
  predicate Enabled(s: State, st: Step) {
    match st
    case PCheck(q) => s.checked.None? && KnownOp(q.op)
    case PPush => s.checked.Some?
    case Poll => s.rspQueue != []
    case Stop => true
    case WTop => s.worker.Top?
    case WTest => s.worker.Testing?
    case WPop => s.worker.Popping?
    case WWake => s.worker.Waiting?
    case WDispatch(_) => s.worker.Dispatching?
    case WRespond => s.worker.Responding?
  }

  /** Taking the front of an empty list is undefined in the source; here the worker would stay. */
  function Apply(metas: Metas, max: int, s: State, st: Step): (r: State)
    requires Enabled(s, st)
  {
    match st
    case PCheck(q) => if max <= |s.reqQueue| then s else s.(checked := Some(q))
    case PPush =>
      var q := s.checked.value;
      s.(accepted := s.accepted + [q], reqQueue := s.reqQueue + [q], checked := None)
    case Poll => s.(delivered := s.delivered + [s.rspQueue[0]], rspQueue := s.rspQueue[1..])
    case Stop => s.(close := true)
    case WTop => s.(worker := if s.close then Exited else Testing)
    case WTest => s.(worker := if s.reqQueue == [] then Waiting else Popping)
    case WPop =>
      if s.reqQueue == [] then s
      else s.(worker := Dispatching(s.reqQueue[0]), reqQueue := s.reqQueue[1..])
    case WWake => s.(worker := if s.close then Exited else Testing)
    case WDispatch(db) =>
      s.(rsp := Dispatch(metas, s.worker.q, db, s.rsp.data), dbs := s.dbs + [db], worker := Responding)
    case WRespond => s.(rspQueue := s.rspQueue + [s.rsp], worker := Top)
  }

  predicate CanRun(metas: Metas, max: int, s: State, steps: seq<Step>)
    decreases |steps|
  {
    steps == [] || (Enabled(s, steps[0]) && CanRun(metas, max, Apply(metas, max, s, steps[0]), steps[1..]))
  }

  function Run(metas: Metas, max: int, s: State, steps: seq<Step>): (r: State)
    requires CanRun(metas, max, s, steps)
    decreases |steps|
  {
    if steps == [] then s else Run(metas, max, Apply(metas, max, s, steps[0]), steps[1..])
  }

  function Start(): (s: State) {
    State([], None, [], Top, [], Response("", 0, [], 0, 0), [], [], false)
  }

  // ---------------------------------------------------------------- the sequential reference

  /** The responses of a single thread that serves the requests one after the other. */
  function Serve(metas: Metas, qs: seq<Request>, dbs: seq<Db>): (r: seq<Response>)
    requires |dbs| <= |qs|
    ensures |r| == |dbs|
    decreases |dbs|
  {
    if dbs == [] then []
    else
      var n := |dbs| - 1;
      var before := Serve(metas, qs, dbs[..n]);
      before + [Dispatch(metas, qs[n], dbs[n], if n == 0 then [] else before[n - 1].data)]
  }

  lemma {:induction false} ServeExtends(metas: Metas, qs: seq<Request>, more: seq<Request>, dbs: seq<Db>)
    requires |dbs| <= |qs|
    ensures Serve(metas, qs + more, dbs) == Serve(metas, qs, dbs)
    decreases |dbs|
  {
    if dbs != [] { ServeExtends(metas, qs, more, dbs[..|dbs| - 1]); }
  }

  function InFlight(w: Worker): (r: seq<Request>) {
    if w.Dispatching? then [w.q] else []
  }

  function LastData(rs: seq<Response>): (d: seq<Field>) {
    if rs == [] then [] else rs[|rs| - 1].data
  }

  // Dispatched requests, the one in flight and the queue are the accepted requests in order.
  ghost predicate RequestsOk(s: State) {
    |s.dbs| <= |s.accepted| && s.accepted[|s.dbs|..] == InFlight(s.worker) + s.reqQueue
  }

  /** Handed to the listener, then queued, then about to be queued. */
  function Responded(s: State): (r: seq<Response>) {
    s.delivered + s.rspQueue + if s.worker.Responding? then [s.rsp] else []
  }

  // The responses delivered, queued and about to be queued are those of the sequential thread.
  ghost predicate ResponsesOk(metas: Metas, s: State)
    requires |s.dbs| <= |s.accepted|
  {
    Responded(s) == Serve(metas, s.accepted, s.dbs) && s.rsp.data == LastData(Serve(metas, s.accepted, s.dbs))
  }

  ghost predicate QueueOk(max: int, s: State) {
    && (s.checked.Some? ==> |s.reqQueue| < max)
    && (|s.reqQueue| <= max || s.reqQueue == [])
    && (s.worker.Popping? ==> s.reqQueue != [])
    && (s.worker.Exited? ==> s.close)
  }

  ghost predicate Inv(metas: Metas, max: int, s: State) {
    RequestsOk(s) && ResponsesOk(metas, s) && QueueOk(max, s)
  }

  lemma {:induction false} SliceGrows(a: seq<Request>, x: Request, n: nat)
    requires n <= |a|
    ensures (a + [x])[n..] == a[n..] + [x]
  {
  }

  lemma {:induction false} JoinGrows(a: seq<Request>, b: seq<Request>, x: Request)
    ensures (a + b) + [x] == a + (b + [x])
  {
  }

  lemma {:induction false} PushKeeps(metas: Metas, max: int, s: State)
    requires Inv(metas, max, s) && s.checked.Some?
    ensures Inv(metas, max, Apply(metas, max, s, PPush))
  {
    var q := s.checked.value;
    SliceGrows(s.accepted, q, |s.dbs|);
    JoinGrows(InFlight(s.worker), s.reqQueue, q);
    ServeExtends(metas, s.accepted, [q], s.dbs);
  }

  lemma {:induction false} ServeOneMore(metas: Metas, qs: seq<Request>, dbs: seq<Db>, db: Db)
    requires |dbs| < |qs|
    ensures var before := Serve(metas, qs, dbs);
            Serve(metas, qs, dbs + [db]) == before + [Dispatch(metas, qs[|dbs|], db, LastData(before))]
  {
    assert (dbs + [db])[..|dbs|] == dbs;
  }

  lemma {:induction false} DispatchedRequest(s: State)
    requires RequestsOk(s) && s.worker.Dispatching?
    ensures |s.dbs| < |s.accepted| && s.accepted[|s.dbs|] == s.worker.q && s.accepted[|s.dbs| + 1..] == s.reqQueue
  {
    assert s.accepted[|s.dbs|..][0] == s.worker.q;
    assert s.accepted[|s.dbs| + 1..] == s.accepted[|s.dbs|..][1..];
  }

  lemma {:induction false} DispatchKeeps(metas: Metas, max: int, s: State, db: Db)
    requires Inv(metas, max, s) && s.worker.Dispatching?
    ensures Inv(metas, max, Apply(metas, max, s, WDispatch(db)))
  {
    var r := Apply(metas, max, s, WDispatch(db));
    DispatchedRequest(s);
    assert [] + r.reqQueue == r.reqQueue;
    ServeOneMore(metas, s.accepted, s.dbs, db);
    RespondedGrows(s, r);
  }

  lemma {:induction false} RespondedGrows(s: State, r: State)
    requires !s.worker.Responding? && r.worker.Responding? && r.delivered == s.delivered && r.rspQueue == s.rspQueue
    ensures Responded(r) == Responded(s) + [r.rsp]
  {
  }

  lemma {:induction false} ApplyKeeps(metas: Metas, max: int, s: State, st: Step)
    requires Inv(metas, max, s) && Enabled(s, st)
    ensures Inv(metas, max, Apply(metas, max, s, st))
  {
    match st
    case PPush => PushKeeps(metas, max, s);
    case WDispatch(db) => DispatchKeeps(metas, max, s, db);
    case Poll =>
      assert s.delivered + [s.rspQueue[0]] + s.rspQueue[1..] == s.delivered + s.rspQueue;
      assert Responded(Apply(metas, max, s, st)) == Responded(s);
    case WPop =>
      assert [s.reqQueue[0]] + s.reqQueue[1..] == [] + s.reqQueue;
    case WRespond =>
      assert s.delivered + s.rspQueue + [s.rsp] == s.delivered + (s.rspQueue + [s.rsp]) + [];
    case _ =>
  }

  lemma {:induction false} RunKeeps(metas: Metas, max: int, s: State, steps: seq<Step>)
    requires Inv(metas, max, s) && CanRun(metas, max, s, steps)
    ensures Inv(metas, max, Run(metas, max, s, steps))
    decreases |steps|
  {
    if steps != [] {
      ApplyKeeps(metas, max, s, steps[0]);
      RunKeeps(metas, max, Apply(metas, max, s, steps[0]), steps[1..]);
    }
  }

  /**
    In every interleaving: the responses handed to the listener, then those in the queue, then
    the one being queued, are exactly what serving the accepted requests one after the other
    gives, in order of acceptance; the requests not yet dispatched are the rest, in order, first
    the one in flight and then the queue; the queue keeps its bound; and the worker never takes
    from an empty queue.
   */
  lemma {:induction false} QueuesServeInOrder(metas: Metas, max: int, steps: seq<Step>)
    requires CanRun(metas, max, Start(), steps)
    ensures var s := Run(metas, max, Start(), steps);
            && |s.dbs| <= |s.accepted|
            && Responded(s) == Serve(metas, s.accepted, s.dbs)
            && s.accepted == s.accepted[..|s.dbs|] + InFlight(s.worker) + s.reqQueue
            && (|s.reqQueue| <= max || s.reqQueue == [])
            && (s.worker.Popping? ==> s.reqQueue != [])
  {
    RunKeeps(metas, max, Start(), steps);
    var s := Run(metas, max, Start(), steps);
    assert s.accepted == s.accepted[..|s.dbs|] + s.accepted[|s.dbs|..];
  }

  /** A worker that has left has answered every request it took: what is missing is still queued. */
  lemma {:induction false} NothingTakenIsLost(metas: Metas, max: int, steps: seq<Step>)
    requires CanRun(metas, max, Start(), steps) && Run(metas, max, Start(), steps).worker.Exited?
    ensures var s := Run(metas, max, Start(), steps);
            s.close && |s.accepted| == |s.delivered| + |s.rspQueue| + |s.reqQueue|
  {
    RunKeeps(metas, max, Start(), steps);
    var s := Run(metas, max, Start(), steps);
    assert |s.delivered + s.rspQueue + []| == |s.dbs|;
  }

  /** The steps of the worker. */
  predicate IsWork(st: Step) {
    st.WTop? || st.WTest? || st.WPop? || st.WWake? || st.WDispatch? || st.WRespond?
  }

  function WorkIn(steps: seq<Step>): (n: nat)
    decreases |steps|
  {
    if steps == [] then 0 else (if IsWork(steps[0]) then 1 else 0) + WorkIn(steps[1..])
  }

  // How many more steps a stopped worker takes at most.
  function Remaining(w: Worker): (n: nat) {
    match w
    case Exited => 0
    case Top => 1
    case Waiting => 1
    case Responding => 2
    case Dispatching(_) => 3
    case Popping => 4
    case Testing => 5
  }

  // Requests dispatched, and the one the stopped worker may still dispatch.
  function MayDispatch(s: State): (n: nat) {
    |s.dbs| + if s.worker.Testing? || s.worker.Popping? || s.worker.Dispatching? then 1 else 0
  }

  lemma {:induction false} StoppedStep(metas: Metas, max: int, s: State, st: Step)
    requires Inv(metas, max, s) && Enabled(s, st) && s.close
    ensures var r := Apply(metas, max, s, st);
            && r.close && MayDispatch(r) <= MayDispatch(s)
            && Remaining(r.worker) + (if IsWork(st) then 1 else 0) <= Remaining(s.worker)
  {
  }

  lemma {:induction false} StoppedRun(metas: Metas, max: int, s: State, steps: seq<Step>)
    requires Inv(metas, max, s) && CanRun(metas, max, s, steps) && s.close
    ensures var r := Run(metas, max, s, steps);
            WorkIn(steps) + Remaining(r.worker) <= Remaining(s.worker) && |r.dbs| <= MayDispatch(s)
    decreases |steps|
  {
    if steps != [] {
      ApplyKeeps(metas, max, s, steps[0]);
      StoppedStep(metas, max, s, steps[0]);
      StoppedRun(metas, max, Apply(metas, max, s, steps[0]), steps[1..]);
    }
  }

  /**
    In every interleaving, a worker that has been told to stop takes at most five more steps and
    dispatches at most one more request; and it always has a next step until it has left.
   */
  lemma {:induction false} StoppedWorkerExits(metas: Metas, max: int, before: seq<Step>, after: seq<Step>, db: Db)
    requires CanRun(metas, max, Start(), before) && Run(metas, max, Start(), before).close
    requires CanRun(metas, max, Run(metas, max, Start(), before), after)
    ensures var s := Run(metas, max, Start(), before);
            var r := Run(metas, max, s, after);
            && WorkIn(after) <= 5 && |r.dbs| <= |s.dbs| + 1
            && (r.worker.Exited? || exists st :: IsWork(st) && Enabled(r, st))
  {
    RunKeeps(metas, max, Start(), before);
    var s := Run(metas, max, Start(), before);
    StoppedRun(metas, max, s, after);
    NextStep(Run(metas, max, s, after), db);
  }

  lemma {:induction false} NextStep(s: State, db: Db)
    ensures s.worker.Exited? || exists st :: IsWork(st) && Enabled(s, st)
  {
    var st := match s.worker
      case Top => WTop
      case Testing => WTest
      case Popping => WPop
      case Waiting => WWake
      case Dispatching(_) => WDispatch(db)
      case _ => WRespond;
    assert IsWork(st) && (s.worker.Exited? || Enabled(s, st));
  }

  // ---------------------------------------------------------------- what a response holds

  /** The statement got as far as its result set. */
  predicate Reached(metas: Metas, q: Request, db: Db) {
    q.op == REQ_SELECT && q.table in metas && q.wher != "" && db.generated && db.executed && db.stored
  }

  function OwnRows(metas: Metas, q: Request, db: Db): (r: seq<Field>)
    requires q.table in metas
  {
    if db.row.Some? then Fields(metas[q.table], db.row.value, BLANK, 0) else []
  }

  /** The latest response up to k whose statement got as far as its result set. */
  function LastReached(metas: Metas, qs: seq<Request>, dbs: seq<Db>, k: nat): (r: Option<nat>)
    requires k < |dbs| <= |qs|
    ensures r.Some? ==> r.value <= k && Reached(metas, qs[r.value], dbs[r.value])
  {
    if Reached(metas, qs[k], dbs[k]) then Some(k) else if k == 0 then None else LastReached(metas, qs, dbs, k - 1)
  }

  lemma {:induction false} ServeAt(metas: Metas, qs: seq<Request>, dbs: seq<Db>, k: nat)
    requires k < |dbs| <= |qs|
    ensures Serve(metas, qs, dbs)[k]
            == Dispatch(metas, qs[k], dbs[k], if k == 0 then [] else Serve(metas, qs, dbs)[k - 1].data)
    decreases |dbs|
  {
    if k < |dbs| - 1 { ServeAt(metas, qs, dbs[..|dbs| - 1], k); }
  }

  /**
    The k-th response answers the k-th accepted request: same table, operation and callback.  It
    is a SELECT with result OK or NO_DATA exactly when its statement got as far as its result
    set, and then it holds that query's row and nothing else.  Every other response holds the
    rows of the latest SELECT that did, or nothing when there was none.
   */
  lemma {:induction false} ResponseHolds(metas: Metas, qs: seq<Request>, dbs: seq<Db>, k: nat)
    requires k < |dbs| <= |qs|
    ensures var r := Serve(metas, qs, dbs)[k];
            && r.table == qs[k].table && r.op == qs[k].op && r.cb == qs[k].cb
            && (r.op == REQ_SELECT && (r.ret == RESULT_OK || r.ret == RESULT_NO_DATA)
                <==> Reached(metas, qs[k], dbs[k]))
            && var j := LastReached(metas, qs, dbs, k);
               r.data == if j.Some? then OwnRows(metas, qs[j.value], dbs[j.value]) else []
    decreases k
  {
    ServeAt(metas, qs, dbs, k);
    if 0 < k { ResponseHolds(metas, qs, dbs, k - 1); }
  }

  /** The statement could be made and was run. */
  predicate Ran(metas: Metas, q: Request, db: Db) {
    q.table in metas && db.generated && db.executed
  }

  /**
    UPDATE (2) and DELETE (3) are answered with 0 if and only if the statement ran; the table is not
    known with 5, no statement with 7, a failed one with 0x7FFF.
   */
  ghost predicate ChangeCodes(metas: Metas, q: Request, db: Db, ret: int) {
    && (ret == 0 <==> Ran(metas, q, db))
    && (ret == 5 <==> q.table !in metas)
    && (ret == 7 <==> q.table in metas && !db.generated)
    && (ret == 0x7FFF <==> q.table in metas && db.generated && !db.executed)
  }

  /** INSERT (4): a failed statement is answered with 2 for a duplicate key, else with 0x7FFF + errno. */
  ghost predicate InsertCodes(metas: Metas, q: Request, db: Db, ret: int) {
    && (ret == 0 <==> Ran(metas, q, db))
    && (ret == 5 <==> q.table !in metas)
    && (ret == 7 <==> q.table in metas && !db.generated)
    && (ret == 2 <==> q.table in metas && db.generated && !db.executed && db.errno == 1062)
    && (ret == 0x7FFF + db.errno
        <==> q.table in metas && db.generated && !db.executed && db.errno != 1062)
  }

  /** SELECT (1): 0 if and only if a row came, 1 if and only if the result set was empty. */
  ghost predicate SelectCodes(metas: Metas, q: Request, db: Db, ret: int) {
    && (ret == 0 <==> Ran(metas, q, db) && q.wher != "" && db.stored && db.row.Some?)
    && (ret == 1 <==> Ran(metas, q, db) && q.wher != "" && db.stored && db.row.None?)
    && (ret == 5 <==> q.table !in metas)
    && (ret == 4 <==> q.table in metas && q.wher == "")
    && (ret == 7 <==> q.table in metas && q.wher != "" && !db.generated)
    && (ret == 0x7FFF <==> q.table in metas && q.wher != "" && db.generated && !db.executed)
    && (ret == 6 <==> Ran(metas, q, db) && q.wher != "" && !db.stored)
  }

  /** CREATE TABLE (6): 0 if and only if it ran; 0x7F stays in the field when the table is not known. */
  ghost predicate CreateCodes(metas: Metas, q: Request, db: Db, ret: int) {
    && (ret == 0 <==> q.table in metas && db.executed)
    && (ret == -1 <==> q.table in metas && !db.executed)
    && (ret == 0x7F <==> q.table !in metas)
  }

  ghost predicate Codes(metas: Metas, q: Request, db: Db, ret: int) {
    && (q.op == 1 ==> SelectCodes(metas, q, db, ret))
    && (q.op == 2 || q.op == 3 ==> ChangeCodes(metas, q, db, ret))
    && (q.op == 4 ==> InsertCodes(metas, q, db, ret))
    && (q.op == 6 ==> CreateCodes(metas, q, db, ret))
  }

  /** The k-th response's result code says, for each operation, exactly what became of the k-th request. */
  lemma {:induction false} ResultCodes(metas: Metas, qs: seq<Request>, dbs: seq<Db>, k: nat)
    requires k < |dbs| <= |qs|
    ensures Codes(metas, qs[k], dbs[k], Serve(metas, qs, dbs)[k].ret)
    ensures KnownOp(qs[k].op) <==> qs[k].op in {1, 2, 3, 4, 6}
  {
    ServeAt(metas, qs, dbs, k);
  }

  /**
    In every interleaving, the k-th response handed to the listener answers the k-th request that
    was accepted, and its result code says exactly what became of it.
   */
  lemma {:induction false} DeliveredSaysWhatHappened(metas: Metas, max: int, steps: seq<Step>, k: nat)
    requires CanRun(metas, max, Start(), steps) && k < |Run(metas, max, Start(), steps).delivered|
    ensures var s := Run(metas, max, Start(), steps);
            && k < |s.dbs| <= |s.accepted|
            && var (q, r) := (s.accepted[k], s.delivered[k]);
               r.table == q.table && r.op == q.op && r.cb == q.cb && Codes(metas, q, s.dbs[k], r.ret)
  {
    QueuesServeInOrder(metas, max, steps);
    var s := Run(metas, max, Start(), steps);
    assert Responded(s)[k] == s.delivered[k];
    ResponseHolds(metas, s.accepted, s.dbs, k);
    ResultCodes(metas, s.accepted, s.dbs, k);
  }

  /** The reused field leaks: the response to an INSERT carries the row of the SELECT before it. */
  lemma {:induction false} InsertCarriesSelectedRow(metas: Metas, qs: seq<Request>, dbs: seq<Db>)
    requires |qs| == |dbs| == 2 && qs[1].op == REQ_INSERT && Reached(metas, qs[0], dbs[0]) && dbs[0].row.Some?
    ensures Serve(metas, qs, dbs)[1].data == Fields(metas[qs[0].table], dbs[0].row.value, BLANK, 0)
  {
    ResponseHolds(metas, qs, dbs, 1);
    assert LastReached(metas, qs, dbs, 1) == LastReached(metas, qs, dbs, 0);
  }

  /** The value of column k: that of the last column up to k that the table's meta knows. */
  function LastKnown(meta: Meta, cols: seq<Column>, k: nat): (v: int)
    requires k < |cols|
  {
    if cols[k].name in meta then meta[cols[k].name](cols[k].text)
    else if k == 0 then BLANK.value else LastKnown(meta, cols, k - 1)
  }

  lemma {:induction false} FieldsFrom(meta: Meta, cols: seq<Column>, f: Field, i: nat, k: nat)
    requires i <= k < |cols| && f.value == if i == 0 then BLANK.value else LastKnown(meta, cols, i - 1)
    ensures Fields(meta, cols, f, i)[k - i] == Field(cols[k].name, LastKnown(meta, cols, k))
    decreases k - i
  {
    if i < k { FieldsFrom(meta, cols, SetField(meta, f, cols[i]), i + 1, k); }
  }

  /**
    A row's field carries its own column's name, and a column the meta does not know takes over the
    value before it.
   */
  lemma {:induction false} FieldHoldsLastKnownColumn(meta: Meta, cols: seq<Column>, k: nat)
    requires k < |cols|
    ensures Fields(meta, cols, BLANK, 0)[k] == Field(cols[k].name, LastKnown(meta, cols, k))
  {
    FieldsFrom(meta, cols, BLANK, 0, k);
  }
}
