/**
  GateClientHandler as an object: the receive buffer is an array that incoming bytes are copied
  into, and the handler calls itself on what a message leaves of a chunk.
 */
module GateClient {
  import opened Values
  import opened FrameDecoder
  import Gate
  import opened Handshake

  const RECV_BUFFER: nat := 65536 + 4

  /** The state after a list of messages; one that fails leaves it as it was. */
  function After(parse: Parser, c: ClientState, msgs: seq<Bytes>): (r: ClientState)
    decreases |msgs|
  {
    if msgs == [] then c
    else
      var d := Dispatch(parse, c, Gate.Payload(msgs[0]));
      After(parse, if d.Next? then d.c else c, msgs[1..])
  }

  /** How many of the messages fail. */
  function Failures(parse: Parser, c: ClientState, msgs: seq<Bytes>): (n: nat)
    decreases |msgs|
  {
    if msgs == [] then 0
    else
      var d := Dispatch(parse, c, Gate.Payload(msgs[0]));
      if d.Next? then Failures(parse, d.c, msgs[1..]) else 1 + Failures(parse, c, msgs[1..])
  }

  /** A message with which a client that is not authorised can do nothing: not a control message, or a foreign one. */
  predicate Unusable(parse: Parser, msg: Bytes) {
    parse(msg).None? || Foreign(parse(msg))
  }

  /** How many of the messages ahead of an AUTH_RSP with result 0 are unusable. */
  function UnusableAhead(parse: Parser, msgs: seq<Bytes>): (n: nat)
    decreases |msgs|
  {
    if msgs == [] || parse(msgs[0]) == Some(Ctrl(3, 0)) then 0
    else (if Unusable(parse, msgs[0]) then 1 else 0) + UnusableAhead(parse, msgs[1..])
  }

  // One of the messages is an AUTH_RSP with result 0.
  ghost predicate GrantedIn(parse: Parser, msgs: seq<Bytes>) {
    exists k :: 0 <= k < |msgs| && parse(msgs[k]) == Some(Ctrl(3, 0))
  }

  // One of the messages is a NEED_AUTH.
  ghost predicate AskedIn(parse: Parser, msgs: seq<Bytes>) {
    exists k :: 0 <= k < |msgs| && parse(msgs[k]).Some? && parse(msgs[k]).value.cmd == 1
  }

  ghost predicate Open(c: ClientState) {
    c.CliConnected? || c.CliAuthorizing?
  }

  /**
    What a list of messages comes to.  A client that waits for its authorisation has it afterwards
    if and only if a grant was among them, and fails at the unusable ones ahead of it; an authorised
    client takes anything; a client that is not connected fails at each.
   */
  lemma {:induction false} MessagesComeTo(parse: Parser, c: ClientState, msgs: seq<Bytes>)
    ensures var r, n := After(parse, c, msgs), Failures(parse, c, msgs);
            if Open(c) then
              && n == UnusableAhead(parse, msgs)
              && (r.CliAuthorized? <==> GrantedIn(parse, msgs))
              && (!r.CliAuthorized? ==> r == if AskedIn(parse, msgs) then CliAuthorizing else c)
            else r == c && n == if c.CliAuthorized? then 0 else |msgs|
    decreases |msgs|
  {
    if msgs != [] {
      var d := Dispatch(parse, c, Gate.Payload(msgs[0]));
      var c1 := if d.Next? then d.c else c;
      MessagesComeTo(parse, c1, msgs[1..]);
      SplitFirst(parse, msgs);
    }
  }

  lemma {:induction false} SplitFirst(parse: Parser, msgs: seq<Bytes>)
    requires msgs != []
    ensures GrantedIn(parse, msgs) <==> parse(msgs[0]) == Some(Ctrl(3, 0)) || GrantedIn(parse, msgs[1..])
    ensures AskedIn(parse, msgs)
            <==> (parse(msgs[0]).Some? && parse(msgs[0]).value.cmd == 1) || AskedIn(parse, msgs[1..])
  {
    assert forall k :: 1 <= k < |msgs| ==> msgs[k] == msgs[1..][k - 1];
  }

  class GateClientHandler {
    const parse: Parser
    const buffer: array<Byte>   // m_rcvMsgBuffer
    var used: nat
    var msgLen: nat             // m_iMsgLen
    var state: ClientState      // m_iCurState

    ghost function View(): Decoder
      reads this, buffer
    {
      Decoder(msgLen, used, buffer[..])
    }

    constructor (parse: Parser)
      ensures Clean(View()) && msgLen == 0 && state == CliClosed && this.parse == parse && fresh(buffer)
      ensures buffer.Length == 65540
    {
      this.parse := parse;
      buffer := new Byte[RECV_BUFFER](_ => 0);
      used, msgLen, state := 0, 0, CliClosed;
    }

    method OnConnected()
      modifies this`state
      ensures state == CliConnected
    {
      state := CliConnected;
    }

    method OnDisconnected()
      requires Clean(View())
      modifies this`state, this`msgLen, this`used
      ensures state == CliClosed && msgLen == 0 && Clean(View())
    {
      state := CliClosed;
      msgLen := 0;
      used := 0;
    }

    method CopyIn(at: nat, src: Bytes)
      requires at + |src| <= buffer.Length
      modifies buffer
      ensures buffer[..] == Copy(old(buffer[..]), at, src)
    {
      for k := 0 to |src|
        invariant forall j :: 0 <= j < buffer.Length ==>
                    buffer[j] == if at <= j < at + k then src[j - at] else old(buffer[j])
      {
        buffer[at + k] := src[k];
      }
    }

    method DispatchMessage(msg: Bytes) returns (ret: int)
      modifies this`state
      ensures var d := Dispatch(parse, old(state), Gate.Payload(msg));
              state == (if d.Next? then d.c else old(state)) && ret == if d.Next? then 0 else -1
    {
      match state {
        case CliConnected | CliAuthorizing =>
          var ctrl := parse(msg);
          if ctrl.None? { return -1; }
          if ctrl.value.cmd == CMD_NEED_AUTH {
            state := CliAuthorizing;
            return 0;
          }
          if ctrl.value.cmd == CMD_AUTH_RSP {
            if ctrl.value.result == 0 { state := CliAuthorized; }
            return 0;
          }
        case CliAuthorized => return 0;
        case _ =>
      }
      ret := -1; // the assertion
    }

    /** The first half of the handler: the length prefix, if one is due and there. */
    method TakePrefix(chunk: Bytes) returns (off: nat)
      requires Clean(View())
      modifies this`used, this`msgLen, buffer
      ensures Clean(View()) && off <= |chunk|
      ensures Feed(old(View()), chunk) == FeedBody(View(), chunk, off)
    {
      off := 0;
      if msgLen == 0 {
        if used + |chunk| >= PREFIX {
          off := PREFIX - used;
          CopyIn(used, chunk[..off]);
          msgLen := NetShort(buffer[0], buffer[1]);
          used := 0;
        } else {
          CopyIn(used, chunk);
        }
      }
    }

    /** The second half, up to the dispatch: the body, if it is all there. */
    method TakeBody(chunk: Bytes, off: nat) returns (msg: Bytes, rest: Bytes)
      requires Clean(View()) && off <= |chunk|
      modifies this`used, this`msgLen, buffer
      ensures Clean(View())
      ensures var r := FeedBody(old(View()), chunk, off);
              if r.Complete? then View() == r.d && msg == r.msg && rest == r.rest && msg != []
              else r.Waiting? && View() == r.d && msg == [] && rest == []
    {
      if msgLen == 0 || |chunk| + used - off < msgLen { return [], []; }
      var n := msgLen - used;
      CopyIn(used, chunk[off..off + n]);
      msg := buffer[..msgLen];
      rest := chunk[off + n..];
      msgLen := 0;
      used := 0;
    }

    /** `msgs` are the messages dispatched; the result counts those that failed. */
    method OnDataRecv(chunk: Bytes) returns (ghost msgs: seq<Bytes>, ret: int)
      requires Clean(View())
      modifies this`used, this`msgLen, this`state, buffer
      ensures Clean(View())
      ensures View() == Drain(old(View()), chunk).0 && msgs == Drain(old(View()), chunk).1
      ensures state == After(parse, old(state), msgs)
      ensures ret == Failures(parse, old(state), msgs)
      decreases |chunk|
    {
      var off := TakePrefix(chunk);
      var msg, rest := TakeBody(chunk, off);
      if msg == [] { return [], 0; }
      var bad := DispatchMessage(msg);
      ret := if bad != 0 then 1 else 0;
      ghost var later: seq<Bytes> := [];
      if rest != [] {
        var more: int;
        later, more := OnDataRecv(rest);
        ret := ret + more;
      }
      msgs := [msg] + later;
    }
  }
}
