/** Receiving one WebSocket frame in as many reads as it takes, and answering a PING. */
module WsReceive {
  import opened Protocol
  import opened WsSend

  /** Fails: an error. Nothing: a timeout before any frame has begun. Bytes(n): up to n bytes of the frame. */
  datatype Read = Fails | Nothing | Bytes(n: nat)

  /** A DATA event: where in the payload its bytes belong. */
  datatype DataEvent = DataEvent(offset: nat, total: nat, code: nat, data: seq<byte>)

  /** Waiting: the call has not returned after the reads made so far. */
  datatype Returned = Success | Failure | Waiting

  function Least(a: nat, b: nat): nat {
    if a < b then a else b
  }

  function Total(lens: seq<nat>): nat {
    if lens == [] then 0 else Total(lens[..|lens| - 1]) + lens[|lens| - 1]
  }

  /** How a call ends and how many bytes each of its reads brings: never more than fit the buffer or are left. */
  function Served(answers: seq<Read>, left: nat, size: nat, first: bool): (Returned, seq<nat>)
    decreases |answers|
  {
    if answers == [] then (Waiting, [])
    else if answers[0].Fails? then (Failure, [])
    else if answers[0].Nothing? && first then (Success, [])
    else
      var n := Least(if answers[0].Bytes? then answers[0].n else 0, Least(size, left));
      if n == left then (Success, [n])
      else
        var (outcome, later) := Served(answers[1..], left - n, size, false);
        (outcome, [n] + later)
  }

  /** The DATA events of reads of these lengths. */
  function EventsFor(code: nat, payload: seq<byte>, lens: seq<nat>): seq<DataEvent>
    requires Total(lens) <= |payload|
    decreases |lens|
  {
    if lens == [] then []
    else
      var front := lens[..|lens| - 1];
      EventsFor(code, payload, front)
      + [DataEvent(Total(front), |payload|, code, payload[Total(front)..Total(lens)])]
  }

  /** Each read overwrites the front of the buffer. */
  function Overlay(buf: seq<byte>, events: seq<DataEvent>): (r: seq<byte>)
    decreases |events|
  {
    if events == [] then buf
    else
      var before := Overlay(buf, events[..|events| - 1]);
      var data := events[|events| - 1].data;
      if |data| <= |before| then data + before[|data|..] else before
  }

  function DataOf(events: seq<DataEvent>): seq<byte> {
    if events == [] then [] else DataOf(events[..|events| - 1]) + events[|events| - 1].data
  }

  /** A handler that appends what the events carry gets the payload, byte for byte, as far as it was read. */
  lemma {:induction false} EventsAreThePayload(code: nat, payload: seq<byte>, lens: seq<nat>)
    requires Total(lens) <= |payload|
    ensures DataOf(EventsFor(code, payload, lens)) == payload[..Total(lens)]
    ensures |EventsFor(code, payload, lens)| == |lens|
    decreases |lens|
  {
    if lens != [] {
      var front := lens[..|lens| - 1];
      var events := EventsFor(code, payload, lens);
      EventsAreThePayload(code, payload, front);
      assert events[..|events| - 1] == EventsFor(code, payload, front);
      assert payload[..Total(front)] + payload[Total(front)..Total(lens)] == payload[..Total(lens)];
    }
  }

  /** Each event says where its bytes belong: behind those of the events before it, in a payload of this length and
      kind. */
  lemma {:induction false} EventsSayWhereTheyBelong(code: nat, payload: seq<byte>, lens: seq<nat>, k: nat)
    requires Total(lens) <= |payload| && k < |lens|
    ensures var events := EventsFor(code, payload, lens);
            && |events| == |lens| && events[k].offset == |DataOf(events[..k])| && |events[k].data| == lens[k]
            && events[k].offset + lens[k] <= |payload|
            && events[k].data == payload[events[k].offset..events[k].offset + lens[k]]
            && events[k].total == |payload| && events[k].code == code
    decreases |lens|
  {
    hide DataOf;
    var front := lens[..|lens| - 1];
    var events := EventsFor(code, payload, lens);
    EventsAreThePayload(code, payload, front);
    assert events[..|front|] == EventsFor(code, payload, front);
    if k < |front| {
      hide EventsFor, Total;
      EventsSayWhereTheyBelong(code, payload, front, k);
      assert events[k] == events[..|front|][k] && events[..k] == events[..|front|][..k];
    }
  }

  lemma TotalSnoc(lens: seq<nat>, n: nat)
    ensures Total(lens + [n]) == Total(lens) + n
  {
    assert (lens + [n])[..|lens|] == lens;
  }

  lemma {:induction false} TotalCons(n: nat, lens: seq<nat>)
    ensures Total([n] + lens) == n + Total(lens)
    decreases |lens|
  {
    if lens == [] {
      assert [n] + lens == [] + [n];
      TotalSnoc([], n);
    } else {
      assert [n] + lens == ([n] + lens[..|lens| - 1]) + [lens[|lens| - 1]];
      TotalSnoc([n] + lens[..|lens| - 1], lens[|lens| - 1]);
      TotalCons(n, lens[..|lens| - 1]);
    }
  }

  /** A successful call has read the whole frame, and its last read brought something if there was anything. */
  lemma {:induction false} SuccessReadsAll(answers: seq<Read>, left: nat, size: nat, first: bool)
    ensures var (outcome, lens) := Served(answers, left, size, first);
            && Total(lens) <= left
            && (outcome.Success? && (lens != [] || !first) ==>
                  lens != [] && Total(lens) == left && (left > 0 ==> lens[|lens| - 1] > 0))
            && (first ==> (NothingCame(answers) <==> outcome.Success? && lens == []))
    decreases |answers|
  {
    if answers != [] && !answers[0].Fails? && !(answers[0].Nothing? && first) {
      var n := Least(if answers[0].Bytes? then answers[0].n else 0, Least(size, left));
      if n == left {
        assert [n] == [] + [n];
        TotalSnoc([], n);
      } else {
        SuccessReadsAll(answers[1..], left - n, size, false);
        TotalCons(n, Served(answers[1..], left - n, size, false).1);
      }
    }
  }

  /** Each read brings at least one byte. */
  predicate Steady(answers: seq<Read>) {
    forall i :: 0 <= i < |answers| ==> answers[i].Bytes? && answers[i].n > 0
  }

  lemma TotalOfOne(n: nat)
    ensures Total([n]) == n
  {
    assert [n] == [] + [n];
    TotalSnoc([], n);
  }

  /** A frame whose bytes keep coming is received whole: as many such reads as it has bytes are enough, and one if it
      has none. */
  lemma {:induction false} SteadyReadsSucceed(answers: seq<Read>, left: nat, size: nat, first: bool)
    requires size > 0 && |answers| >= left && |answers| > 0 && Steady(answers)
    ensures var (outcome, lens) := Served(answers, left, size, first);
            outcome.Success? && lens != [] && Total(lens) == left
    decreases |answers|
  {
    hide Total;
    var n := Least(answers[0].n, Least(size, left));
    TotalOfOne(n);
    if n != left {
      SteadyReadsSucceed(answers[1..], left - n, size, false);
      TotalCons(n, Served(answers[1..], left - n, size, false).1);
    }
  }

  /** A read that fails before the frame is complete ends the call in failure, after the bytes that came until then. */
  lemma {:induction false} FailingReadFails(before: seq<Read>, after: seq<Read>, left: nat, size: nat, first: bool)
    requires Steady(before) && size > 0
    requires Total(Served(before, left, size, first).1) < left || before == []
    ensures var (outcome, lens) := Served(before + [Fails] + after, left, size, first);
            outcome.Failure? && lens == Served(before, left, size, first).1 && |lens| == |before|
    decreases |before|
  {
    hide Total;
    var all := before + [Fails] + after;
    if before == [] {
      assert all[0] == Fails;
    } else {
      var n := Least(before[0].n, Least(size, left));
      assert all[0] == before[0] && all[1..] == before[1..] + [Fails] + after;
      TotalOfOne(n);
      if n != left {
        TotalCons(n, Served(before[1..], left - n, size, false).1);
        FailingReadFails(before[1..], after, left - n, size, false);
      }
    }
  }

  // ----- the receive loop -----

  class Inbox {
    const bufferSize: nat
    const rxBuffer: array<byte>
    var payloadOffset: nat
    var state: WsState
    var waitForPong: bool
    var events: seq<DataEvent>
    var wire: seq<WsFrame>

    constructor (bufferSize: nat)
      ensures this.bufferSize == rxBuffer.Length == bufferSize && state == Connected && events == [] && wire == []
    {
      this.bufferSize := bufferSize;
      rxBuffer := new byte[bufferSize](_ => 0);
      payloadOffset, state, waitForPong, events, wire := 0, Connected, false, [], [];
    }

    /** One read and its DATA event: at most what fits the buffer and what is left of the frame. */
    method ReadSome(code: nat, payload: seq<byte>, want: nat) returns (ghost e: DataEvent)
      requires payloadOffset <= |payload| && rxBuffer.Length == bufferSize
      modifies rxBuffer, this`payloadOffset, this`events
      ensures payloadOffset == old(payloadOffset) + Least(want, Least(bufferSize, |payload| - old(payloadOffset)))
      ensures e == DataEvent(old(payloadOffset), |payload|, code, payload[old(payloadOffset)..payloadOffset])
      ensures events == old(events) + [e] && rxBuffer[..] == e.data + old(rxBuffer[..])[|e.data|..]
    {
      var rlen := want;
      if rlen > bufferSize {
        rlen := bufferSize;
      }
      if payloadOffset + rlen > |payload| {
        rlen := |payload| - payloadOffset;
      }
      forall i | 0 <= i < rlen {
        rxBuffer[i] := payload[payloadOffset + i];
      }
      assert rxBuffer[..rlen] == payload[payloadOffset..payloadOffset + rlen];
      events := events + [DataEvent(payloadOffset, |payload|, code, rxBuffer[..rlen])];
      e := DataEvent(payloadOffset, |payload|, code, payload[payloadOffset..payloadOffset + rlen]);
      payloadOffset := payloadOffset + rlen;
    }

    /** The do-while loop of esp_websocket_client_recv; answers is how the transport delivers the frame. */
    method ReadFrame(code: nat, payload: seq<byte>, answers: seq<Read>)
        returns (outcome: Returned, ghost lens: seq<nat>)
      requires rxBuffer.Length == bufferSize
      modifies rxBuffer, this`payloadOffset, this`events
      ensures (outcome, lens) == Served(answers, |payload|, bufferSize, true) && Total(lens) <= |payload|
      ensures events == old(events) + EventsFor(code, payload, lens)
      ensures rxBuffer[..] == Overlay(old(rxBuffer[..]), EventsFor(code, payload, lens))
    {
      hide Served, EventsFor, Overlay, Total, Then;
      ghost var before := rxBuffer[..];
      payloadOffset, lens := 0, [];
      ghost var mine: seq<DataEvent> := [];
      NothingRead(code, payload, before);
      ServedFromStart(answers, |payload|, bufferSize);
      var r := 0;
      while true
        invariant r == |lens| <= |answers| && payloadOffset == Total(lens) <= |payload|
        invariant mine == EventsFor(code, payload, lens) && events == old(events) + mine
        invariant rxBuffer[..] == Overlay(before, mine)
        invariant Served(answers, |payload|, bufferSize, true)
               == Then(lens, Served(answers[r..], |payload| - payloadOffset, bufferSize, r == 0))
        decreases |answers| - r
      {
        NextServed(lens, answers, r, |payload| - payloadOffset, bufferSize);
        if r == |answers| {
          return Waiting, lens;
        }
        if answers[r].Fails? {
          return Failure, lens;
        }
        if answers[r].Nothing? && r == 0 {
          return Success, lens;
        }
        ghost var from := payloadOffset;
        ghost var e := ReadSome(code, payload, if answers[r].Bytes? then answers[r].n else 0);
        NextEvent(code, payload, before, lens, payloadOffset - from);
        lens, mine := lens + [payloadOffset - from], mine + [e];
        r := r + 1;
        if payloadOffset >= |payload| {
          return Success, lens;
        }
      }
    }

    /** esp_websocket_client_recv for a frame with this code and payload. A PING longer than the buffer is outside
        what the source supports. */
    method Recv(code: nat, payload: seq<byte>, answers: seq<Read>) returns (outcome: Returned, ghost lens: seq<nat>)
      requires rxBuffer.Length == bufferSize && (code == PING ==> |payload| <= bufferSize)
      modifies this, rxBuffer
      ensures (outcome, lens) == Served(answers, |payload|, bufferSize, true) && Total(lens) <= |payload|
      ensures events == old(events) + EventsFor(code, payload, lens)
      ensures outcome == Success && lens != [] ==> Total(lens) == |payload|
      ensures var whole := outcome == Success && lens != [];
              && state == (if whole && code == CLOSE then Closing else old(state))
              && waitForPong == (old(waitForPong) && !(whole && code == PONG))
              && wire == old(wire) + (if whole && code == PING
                                      then [WsFrame(true, PONG, Pong(old(rxBuffer[..]), payload, lens))] else [])
    {
      hide Served, EventsFor, Overlay, Total;
      SuccessReadsAll(answers, |payload|, bufferSize, true);
      outcome, lens := ReadFrame(code, payload, answers);
      // a return inside the loop skips what follows
      if outcome != Success || NothingCame(answers) {
        return;
      }
      if code == PING {
        wire := wire + [WsFrame(true, PONG, rxBuffer[..|payload|])];
      } else if code == PONG {
        waitForPong := false;
      } else if code == CLOSE {
        state := Closing;
      }
    }
  }

  /** The payload the task answers a PING with: the front of the buffer. */
  function Pong(buf: seq<byte>, payload: seq<byte>, lens: seq<nat>): seq<byte>
    requires Total(lens) <= |payload|
  {
    var after := Overlay(buf, EventsFor(PING, payload, lens));
    if |payload| <= |after| then after[..|payload|] else after
  }

  /** The call returned on a timeout before any frame had begun. */
  predicate NothingCame(answers: seq<Read>) {
    answers != [] && answers[0].Nothing?
  }

  lemma ServedFromStart(answers: seq<Read>, left: nat, size: nat)
    ensures Served(answers, left, size, true) == Then([], Served(answers[0..], left, size, true))
  {
    assert answers[0..] == answers;
    assert [] + Served(answers, left, size, true).1 == Served(answers, left, size, true).1;
  }

  function Then(lens: seq<nat>, rest: (Returned, seq<nat>)): (Returned, seq<nat>) {
    (rest.0, lens + rest.1)
  }

  lemma NothingRead(code: nat, payload: seq<byte>, buf: seq<byte>)
    ensures EventsFor(code, payload, []) == [] && Overlay(buf, []) == buf && Total([]) == 0
  {
  }

  /** One round of the loop, as Served sees it. */
  lemma NextServed(lens: seq<nat>, answers: seq<Read>, r: nat, left: nat, size: nat)
    requires r <= |answers|
    ensures var rest := Served(answers[r..], left, size, r == 0);
            if r == |answers| then Then(lens, rest) == (Waiting, lens)
            else if answers[r].Fails? then Then(lens, rest) == (Failure, lens)
            else if answers[r].Nothing? && r == 0 then Then(lens, rest) == (Success, lens)
            else
              var n := Least(if answers[r].Bytes? then answers[r].n else 0, Least(size, left));
              if n == left then Then(lens, rest) == (Success, lens + [n])
              else Then(lens, rest) == Then(lens + [n], Served(answers[r + 1..], left - n, size, false))
  {
    assert lens + [] == lens;
    if r < |answers| {
      assert answers[r..][1..] == answers[r + 1..] && answers[r..][0] == answers[r];
      var n := Least(if answers[r].Bytes? then answers[r].n else 0, Least(size, left));
      if n <= left {
        assert lens + ([n] + Served(answers[r + 1..], left - n, size, false).1)
            == lens + [n] + Served(answers[r + 1..], left - n, size, false).1;
      }
    }
  }

  lemma NextEvent(code: nat, payload: seq<byte>, buf: seq<byte>, lens: seq<nat>, n: nat)
    requires Total(lens) + n <= |payload|
    ensures Total(lens + [n]) == Total(lens) + n
    ensures var (events, from) := (EventsFor(code, payload, lens), Total(lens));
            var e := DataEvent(from, |payload|, code, payload[from..from + n]);
            && EventsFor(code, payload, lens + [n]) == events + [e]
            && (n <= |Overlay(buf, events)| ==>
                  Overlay(buf, events + [e]) == e.data + Overlay(buf, events)[n..])
  {
    hide EventsFor, Overlay, Total;
    TotalSnoc(lens, n);
    EventsSnoc(code, payload, lens, n);
    if n <= |Overlay(buf, EventsFor(code, payload, lens))| {
      OverlaySnoc(buf, EventsFor(code, payload, lens),
                  DataEvent(Total(lens), |payload|, code, payload[Total(lens)..Total(lens) + n]));
    }
  }

  lemma EventsSnoc(code: nat, payload: seq<byte>, lens: seq<nat>, n: nat)
    requires Total(lens + [n]) == Total(lens) + n <= |payload|
    ensures EventsFor(code, payload, lens + [n])
         == EventsFor(code, payload, lens)
            + [DataEvent(Total(lens), |payload|, code, payload[Total(lens)..Total(lens) + n])]
  {
    hide Total;
    assert (lens + [n])[..|lens|] == lens;
  }

  lemma OverlaySnoc(buf: seq<byte>, events: seq<DataEvent>, e: DataEvent)
    requires |e.data| <= |Overlay(buf, events)|
    ensures Overlay(buf, events + [e]) == e.data + Overlay(buf, events)[|e.data|..]
  {
    assert (events + [e])[..|events|] == events;
  }

  // ----- when a PONG repeats its PING -----

  /** The PONG begins with the bytes of the last read. */
  lemma PongBeginsWithLastRead(buf: seq<byte>, payload: seq<byte>, lens: seq<nat>)
    requires lens != [] && Total(lens) == |payload| <= |buf|
    ensures var from := Total(lens[..|lens| - 1]);
            from <= |payload| && |Pong(buf, payload, lens)| == |payload|
            && Pong(buf, payload, lens)[..|payload| - from] == payload[from..]
  {
    hide EventsFor, Overlay;
    var front, n := lens[..|lens| - 1], lens[|lens| - 1];
    var events, from := EventsFor(PING, payload, front), Total(front);
    var e := DataEvent(from, |payload|, PING, payload[from..from + n]);
    assert front + [n] == lens;
    OverlayKeepsLength(buf, events);
    NextEvent(PING, payload, buf, front, n);
    var after := Overlay(buf, events + [e]);
    assert after == e.data + Overlay(buf, events)[n..];
    assert Pong(buf, payload, lens) == after[..|payload|];
    assert e.data == payload[from..];
  }

  lemma {:induction false} OverlayKeepsLength(buf: seq<byte>, events: seq<DataEvent>)
    ensures |Overlay(buf, events)| == |buf|
    decreases |events|
  {
    if events != [] {
      OverlayKeepsLength(buf, events[..|events| - 1]);
    }
  }

  /** RFC 6455 section 5.5.3 asks for a PONG with the PING's own payload. By the lengths of the reads alone: the PONG
      is right whatever the payload if and only if the last read begins at the payload's first byte. */
  lemma PongIsFaithfulIffReadAtOnce(buf: seq<byte>, lens: seq<nat>, n: nat)
    requires lens != [] && Total(lens) == n <= |buf| && (n > 0 ==> lens[|lens| - 1] > 0)
    ensures (forall payload: seq<byte> :: |payload| == n ==> Pong(buf, payload, lens) == payload)
       <==> Total(lens[..|lens| - 1]) == 0
  {
    hide Pong;
    var from := Total(lens[..|lens| - 1]);
    if from == 0 {
      forall payload: seq<byte> | |payload| == n ensures Pong(buf, payload, lens) == payload {
        PongBeginsWithLastRead(buf, payload, lens);
      }
    } else {
      var payload: seq<byte> := [1] + seq(n - 1, _ => 0);
      PongBeginsWithLastRead(buf, payload, lens);
      assert from < n && payload[from..][0] == 0;
      assert Pong(buf, payload, lens)[..n - from][0] == 0;
      assert Pong(buf, payload, lens) != payload;
    }
  }

  /** A PING of two bytes that come in two reads is answered with the second byte and what the buffer held. */
  lemma PingInTwoReads(stale: byte)
    ensures Served([Bytes(1), Bytes(1)], 2, 2, true) == (Success, [1, 1]) && Total([1, 1]) == 2
    ensures Pong([stale, stale], [1, 2], [1, 1]) == [2, stale]
  {
    var buf, payload: seq<byte> := [stale, stale], [1, 2];
    assert [Bytes(1), Bytes(1)][1..] == [Bytes(1)];
    assert Served([Bytes(1)], 1, 2, false) == (Success, [1]);
    NothingRead(PING, payload, buf);
    NextEvent(PING, payload, buf, [], 1);
    assert [] + [1] == [1];
    NextEvent(PING, payload, buf, [1], 1);
    assert [1] + [1] == [1, 1];
    var none: seq<DataEvent> := [];
    var e := DataEvent(0, 2, PING, payload[0..1]);
    assert none + [e] == [e] && Overlay(buf, [e]) == [1, stale];
  }
}
