/** Sending one WebSocket message in fragments, and what a receiver that follows RFC 6455 makes of the fragments. */
module WsSend {
  import opened Protocol

  /** Opcode byte: the frame's code in the low bits, the FIN flag on top. */
  const FIN: nat := 0x80
  const CONT: nat := 0
  const TEXT: nat := 1
  const BINARY: nat := 2
  const CLOSE: nat := 8
  const PING: nat := 9
  const PONG: nat := 10
  const MAX_CONTROL_PAYLOAD: nat := 125

  datatype WsFrame = WsFrame(fin: bool, code: nat, payload: seq<byte>)

  /** What the transport answers to a frame: it takes all of it, or returns -code. */
  datatype Outcome = Whole | Failed(code: nat)

  datatype WsState = Unknown | Init | Connected | WaitTimeout | Closing

  datatype WsEvent = ErrorEvent | Disconnected

  // ----- the frames of a send -----

  /** As many full fragments as needed, then the rest: only the first carries the code, only the last the FIN flag. */
  function Fragments(code: nat, fin: bool, data: seq<byte>, size: nat): (r: seq<WsFrame>)
    requires size > 0
    ensures r != []
    decreases |data|
  {
    if |data| <= size then [WsFrame(fin, code, data)]
    else [WsFrame(false, code, data[..size])] + Fragments(CONT, fin, data[size..], size)
  }

  /** An empty continuation without FIN sends nothing. */
  function FramesOf(opcode: nat, data: seq<byte>, size: nat): seq<WsFrame>
    requires size > 0
  {
    if opcode == 0 && data == [] then [] else Fragments(opcode % FIN, opcode >= FIN, data, size)
  }

  /** Returning 0 is a failure only for a frame with a payload. */
  predicate Accepted(o: Outcome, f: WsFrame) {
    o.Whole? || (o.code == 0 && f.payload == [])
  }

  /** How many of the frames, the first being number k, get through before one fails. */
  function Passed(outcomes: nat -> Outcome, k: nat, frames: seq<WsFrame>): (n: nat)
    ensures n <= |frames|
    ensures n < |frames| ==> outcomes(k + n).Failed?
    decreases |frames|
  {
    if frames == [] || !Accepted(outcomes(k), frames[0]) then 0 else 1 + Passed(outcomes, k + 1, frames[1..])
  }

  /** What is still to be sent of a message after its first frames, and what it was when op is its opcode. */
  function Pending(op: nat, containedFin: bool, rest: seq<byte>, size: nat): seq<WsFrame>
    requires size > 0
  {
    FramesOf(if op == 0 && rest != [] && containedFin then FIN else op, rest, size)
  }

  /** The opcode byte of the next frame (source lines 692-698). */
  function NextOpcode(op: nat, containedFin: bool, left: nat, size: nat): nat {
    if left > size then op % FIN else if containedFin then op % FIN + FIN else op
  }

  function NextSize(left: nat, size: nat): nat {
    if left > size then size else left
  }

  function NextFrame(op: nat, containedFin: bool, rest: seq<byte>, size: nat): WsFrame {
    var o := NextOpcode(op, containedFin, |rest|, size);
    WsFrame(o >= FIN, o % FIN, rest[..NextSize(|rest|, size)])
  }

  /** The loop sends the first of the pending frames and leaves the others pending. */
  lemma NextIsFirstPending(op: nat, containedFin: bool, rest: seq<byte>, size: nat)
    requires size > 0 && (rest != [] || op != 0) && (op != 0 ==> (containedFin <==> op >= FIN))
    ensures Pending(op, containedFin, rest, size)
         == [NextFrame(op, containedFin, rest, size)] + Pending(0, containedFin, rest[NextSize(|rest|, size)..], size)
  {
    if |rest| <= size {
      assert rest[..|rest|] == rest && rest[|rest|..] == [];
    }
  }

  lemma StartsPending(opcode: nat, data: seq<byte>, size: nat)
    requires size > 0
    ensures Pending(opcode, opcode >= FIN, data, size) == FramesOf(opcode, data, size)
  {
  }

  lemma NothingPending(outcomes: nat -> Outcome, k: nat, containedFin: bool, size: nat)
    requires size > 0
    ensures Pending(0, containedFin, [], size) == [] && Passed(outcomes, k, []) == 0
  {
  }

  /** The first k frames went through; what becomes of the next one decides how many there are in all. */
  lemma OneMore(outcomes: nat -> Outcome, frames: seq<WsFrame>, k: nat, f: WsFrame, later: seq<WsFrame>)
    requires k <= |frames| && frames[k..] == [f] + later
    requires Passed(outcomes, 0, frames) == k + Passed(outcomes, k, frames[k..])
    ensures k < |frames| && frames[k + 1..] == later && frames[..k + 1] == frames[..k] + [f]
    ensures Accepted(outcomes(k), f) ==> Passed(outcomes, 0, frames) == k + 1 + Passed(outcomes, k + 1, later)
    ensures !Accepted(outcomes(k), f) ==> Passed(outcomes, 0, frames) == k
  {
    assert frames[k] == frames[k..][0];
    assert frames[k + 1..] == frames[k..][1..];
  }

  /** The state an aborted connection is left in. */
  function AfterAbort(state: WsState, autoReconnect: bool): WsState {
    if state.Closing? || state.Unknown? || state.WaitTimeout? then state
    else if autoReconnect then WaitTimeout else Unknown
  }

  class Client {
    var state: WsState
    var run: bool
    var hasTransport: bool
    const autoReconnect: bool
    const bufferSize: nat
    const txBuffer: array<byte>
    /** Complete frames handed to the transport. */
    var wire: seq<WsFrame>
    var events: seq<WsEvent>

    constructor (bufferSize: nat, autoReconnect: bool)
      ensures this.bufferSize == txBuffer.Length == bufferSize && this.autoReconnect == autoReconnect
      ensures state == Unknown && !run && !hasTransport && wire == [] && events == []
    {
      this.bufferSize, this.autoReconnect := bufferSize, autoReconnect;
      txBuffer := new byte[bufferSize](_ => 0);
      state, run, hasTransport, wire, events := Unknown, false, false, [], [];
    }

    /** esp_websocket_client_abort_connection. */
    method AbortConnection()
      modifies this`state, this`run, this`events
      ensures state == AfterAbort(old(state), autoReconnect)
      ensures state == old(state) ==> run == old(run) && events == old(events)
      ensures state != old(state) ==> events == old(events) + [Disconnected] && run == (autoReconnect && old(run))
      ensures old(state) in {Init, Connected} ==> state == if autoReconnect then WaitTimeout else Unknown
      ensures old(state) in {Unknown, WaitTimeout, Closing} ==> state == old(state)
    {
      if state.Closing? || state.Unknown? || state.WaitTimeout? {
        return;
      }
      if !autoReconnect {
        run := false;
        state := Unknown;
      } else {
        state := WaitTimeout;
      }
      events := events + [Disconnected];
    }

    /** esp_transport_ws_send_raw: a frame with the first n bytes of the tx buffer. */
    method SendRaw(opcode: nat, n: nat, outcome: Outcome) returns (wlen: int)
      requires n <= txBuffer.Length
      modifies this`wire
      ensures var f := WsFrame(opcode >= FIN, opcode % FIN, txBuffer[..n]);
              && wlen == (if outcome.Whole? then n else 0 - outcome.code)
              && wire == old(wire) + if Accepted(outcome, f) then [f] else []
    {
      var f := WsFrame(opcode >= FIN, opcode % FIN, txBuffer[..n]);
      wlen := if outcome.Whole? then n else 0 - outcome.code;
      if Accepted(outcome, f) {
        wire := wire + [f];
      }
    }

    /** memcpy into the tx buffer. */
    method Fill(data: array?<byte>, from: nat, n: nat)
      requires n <= txBuffer.Length && data != txBuffer
      requires if data == null then n == 0 else from + n <= data.Length
      modifies txBuffer
      ensures data != null ==> txBuffer[..n] == data[from..from + n]
    {
      if data != null {
        forall i | 0 <= i < n {
          txBuffer[i] := data[from + i];
        }
      }
    }

    /** One round of the send loop: choose the size and the opcode byte, fill the tx buffer, write. */
    method SendFragment(data: array?<byte>, widx: nat, left: nat, opcode: nat, containedFin: bool, outcome: Outcome,
                        ghost rest: seq<byte>)
      returns (wlen: int, needWrite: nat)
      requires opcode < 0x100 && bufferSize > 0 && txBuffer.Length == bufferSize && data != txBuffer
      requires data == null ==> left == 0 && rest == []
      requires data != null ==> widx + left <= data.Length && rest == data[widx..widx + left]
      modifies this`wire, txBuffer
      ensures needWrite == NextSize(left, bufferSize)
      ensures var f := NextFrame(opcode, containedFin, rest, bufferSize);
              && wire == old(wire) + (if Accepted(outcome, f) then [f] else [])
              && (wlen < 0 || (wlen == 0 && needWrite != 0) <==> !Accepted(outcome, f))
              && wlen == if Accepted(outcome, f) then needWrite else 0 - outcome.code
    {
      var op := opcode;
      needWrite := left;
      if needWrite > bufferSize {
        needWrite := bufferSize;
        op := op % FIN;
      } else if containedFin {
        op := op % FIN + FIN;
      }
      Fill(data, widx, needWrite);
      assert txBuffer[..needWrite] == rest[..needWrite];
      wlen := SendRaw(op, needWrite, outcome);
    }

    /** esp_websocket_client_send_with_exact_opcode. lockGranted and bufferGranted answer the wait for the lock and
        the allocation of the tx buffer; outcomes is what the transport answers to the k-th frame. */
    method SendWithExactOpcode(opcode: nat, data: array?<byte>, len: int, lockGranted: bool, bufferGranted: bool,
                               outcomes: nat -> Outcome)
      returns (ret: int)
      requires opcode < 0x100 && bufferSize > 0 && txBuffer.Length == bufferSize && data != txBuffer
      requires data != null ==> len <= data.Length
      modifies this, txBuffer
      ensures hasTransport == old(hasTransport)
      ensures Refused(old(state), old(hasTransport), data == null, len) || !lockGranted || !bufferGranted ==>
        ret == -1 && wire == old(wire) && state == old(state) && events == old(events) && run == old(run)
      ensures !Refused(old(state), old(hasTransport), data == null, len) && lockGranted && bufferGranted ==>
        var frames := FramesOf(opcode, if data == null then [] else old(data[..len]), bufferSize);
        var k := Passed(outcomes, 0, frames);
        && wire == old(wire) + frames[..k]
        && (k == |frames| ==> ret == len && state == old(state) && events == old(events) && run == old(run))
        && (k < |frames| ==> ret == 0 - outcomes(k).code && state == AfterAbort(Connected, autoReconnect)
                             && events == old(events) + [ErrorEvent, Disconnected])
    {
      if len < 0 || (data == null && len > 0) || !state.Connected? || !hasTransport || !lockGranted || !bufferGranted {
        return -1;
      }
      ghost var bytes := if data == null then [] else data[..len];
      hide FramesOf, Passed, NextOpcode;
      var ok;
      ok, ret := SendLoop(opcode, data, len, outcomes, bytes);
      if !ok {
        events := events + [ErrorEvent];
        AbortConnection();
      }
    }

    /** The send loop. */
    method SendLoop(opcode: nat, data: array?<byte>, len: nat, outcomes: nat -> Outcome, ghost bytes: seq<byte>)
      returns (ok: bool, ret: int)
      requires opcode < 0x100 && bufferSize > 0 && txBuffer.Length == bufferSize && data != txBuffer
      requires data != null ==> len <= data.Length && bytes == data[..len]
      requires data == null ==> len == 0 && bytes == []
      modifies this`wire, txBuffer
      ensures var frames := FramesOf(opcode, bytes, bufferSize);
              var k := Passed(outcomes, 0, frames);
              && wire == old(wire) + frames[..k] && (ok <==> k == |frames|)
              && ret == if ok then len else 0 - outcomes(k).code
    {
      hide *;
      var containedFin := opcode >= FIN;
      var op, widx, k := opcode, 0, 0;
      ghost var frames := FramesOf(opcode, bytes, bufferSize);
      assert bytes[0..] == bytes && frames[0..] == frames;
      StartsPending(opcode, bytes, bufferSize);
      while widx < len || op != 0
        invariant 0 <= widx <= len == |bytes| && (op == 0 || op == opcode)
        invariant k <= |frames| && wire == old(wire) + frames[..k]
        invariant frames[k..] == Pending(op, containedFin, bytes[widx..], bufferSize)
        invariant Passed(outcomes, 0, frames) == k + Passed(outcomes, k, frames[k..])
        invariant data != null ==> bytes == data[..len]
        decreases len - widx, op
      {
        ghost var rest := bytes[widx..];
        ghost var f := NextFrame(op, containedFin, rest, bufferSize);
        ghost var n := NextSize(|rest|, bufferSize);
        SizeFits(|rest|, bufferSize);
        ghost var later := Pending(0, containedFin, rest[n..], bufferSize);
        NextIsFirstPending(op, containedFin, rest, bufferSize);
        OneMore(outcomes, frames, k, f, later);
        var wlen, needWrite := SendFragment(data, widx, len - widx, op, containedFin, outcomes(k), rest);
        if wlen < 0 || (wlen == 0 && needWrite != 0) {
          return false, wlen;
        }
        assert rest[n..] == bytes[widx + n..];
        op := 0;
        widx := widx + wlen;
        k := k + 1;
      }
      NothingPending(outcomes, k, containedFin, bufferSize);
      return true, widx;
    }
  }

  lemma SizeFits(left: nat, size: nat)
    ensures NextSize(left, size) <= left && (left > 0 && size > 0 ==> NextSize(left, size) > 0)
  {
  }

  /** The argument and state checks in front of the lock. */
  predicate Refused(state: WsState, hasTransport: bool, noData: bool, len: int) {
    len < 0 || (noData && len > 0) || !state.Connected? || !hasTransport
  }
}
