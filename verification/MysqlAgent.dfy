/**
  MysqlProxy and MysqlAgent as objects: the response field the proxy reuses, and the two queues.
  The threads' interleavings are in module Mysql; here each method is one thread's call.
 */
module MysqlAgent {
  import opened Values
  import opened Mysql

  class MysqlProxy {
    const metas: Metas
    var rsp: Response

    constructor (metas: Metas)
      ensures this.metas == metas && rsp == Start().rsp
    {
      this.metas := metas;
      rsp := Response("", 0, [], 0, 0);
    }

    /** The data vector is cleared once a result set is stored, and refilled column by column. */
    method SelectInto(q: Request, db: Db) returns (ret: int)
      modifies this
      ensures ret == Select(metas, q, db, old(rsp.data)).0 && rsp.data == Select(metas, q, db, old(rsp.data)).1
      ensures rsp == old(rsp).(data := rsp.data)
    {
      if q.table !in metas { return RESULT_NO_META; }
      if |q.wher| == 0 { return RESULT_GET_NO_PK; }
      if !db.generated { return RESULT_SQL_GEN_ERR; }
      if !db.executed { return RESULT_SQL_EXE_ERR; }
      if !db.stored { return RESULT_STORE_RESULT_ERR; }
      rsp := rsp.(data := []);
      if db.row.None? { return RESULT_NO_DATA; }
      var cols := db.row.value;
      var col := BLANK;
      for i := 0 to |cols|
        invariant rsp == old(rsp).(data := rsp.data)
        invariant Fields(metas[q.table], cols, BLANK, 0) == rsp.data + Fields(metas[q.table], cols, col, i)
      {
        ghost var before := rsp.data;
        ghost var rest := Fields(metas[q.table], cols, SetField(metas[q.table], col, cols[i]), i + 1);
        col := SetField(metas[q.table], col, cols[i]);
        rsp := rsp.(data := rsp.data + [col]);
        assert before + ([col] + rest) == (before + [col]) + rest;
      }
      assert rsp.data + [] == rsp.data;
      ret := RESULT_OK;
    }

    method DispatchReq(q: Request, db: Db)
      requires KnownOp(q.op)
      modifies this
      ensures rsp == Dispatch(metas, q, db, old(rsp.data))
    {
      rsp := Response(q.table, q.op, rsp.data, q.cb, RESULT_UNKNOWN);
      if q.op == REQ_SELECT {
        var ret := SelectInto(q, db);
        rsp := rsp.(ret := ret);
      } else if q.op == REQ_CREATE_TB {
        if q.table in metas { rsp := rsp.(ret := if db.executed then 0 else -1); }
      } else {
        rsp := rsp.(ret := Write(metas, q, db));
      }
    }
  }

  class Agent {
    const max: int
    var reqQueue: seq<Request>
    var rspQueue: seq<Response>
    ghost var delivered: seq<Response>

    constructor (max: int)
      ensures this.max == max && reqQueue == [] && rspQueue == [] && delivered == []
    {
      this.max := max;
      reqQueue, rspQueue, delivered := [], [], [];
    }

    method PutRequest(q: Request) returns (ret: int)
      modifies this`reqQueue
      ensures ret == if max <= |old(reqQueue)| then -1 else 0
      ensures reqQueue == if ret == 0 then old(reqQueue) + [q] else old(reqQueue)
    {
      if |reqQueue| >= max { return -1; }
      reqQueue := reqQueue + [q];
      ret := 0;
    }

    method GetRequest() returns (q: Option<Request>)
      modifies this`reqQueue
      ensures old(reqQueue) == if q.Some? then [q.value] + reqQueue else []
      ensures q.None? ==> reqQueue == []
    {
      if reqQueue == [] { return None; }
      q := Some(reqQueue[0]);
      reqQueue := reqQueue[1..];
    }

    method PutResponse(r: Response)
      modifies this`rspQueue
      ensures rspQueue == old(rspQueue) + [r]
    {
      rspQueue := rspQueue + [r];
    }

    /** Hands over the oldest responses, at most n of them. */
    method Polling(n: int) returns (left: int)
      modifies this`rspQueue, this`delivered
      ensures var k := if n <= 0 then 0 else if n <= |old(rspQueue)| then n else |old(rspQueue)|;
              && delivered == old(delivered) + old(rspQueue)[..k] && rspQueue == old(rspQueue)[k..] && left == n - k
    {
      left := n;
      while rspQueue != [] && left > 0
        invariant 0 <= n - left <= |old(rspQueue)| && (n <= 0 ==> left == n) && (0 < n ==> 0 <= left)
        invariant rspQueue == old(rspQueue)[n - left..]
        invariant delivered == old(delivered) + old(rspQueue)[..n - left]
        decreases left
      {
        delivered := delivered + [rspQueue[0]];
        rspQueue := rspQueue[1..];
        left := left - 1;
      }
    }
  }
}
