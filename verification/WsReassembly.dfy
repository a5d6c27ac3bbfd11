/** A receiver that follows RFC 6455 sections 5.4 and 5.5, and what it makes of the client's fragments. */
module WsReassembly {
  import opened Protocol
  import opened WsSend

  datatype Message = Message(code: nat, data: seq<byte>)

  datatype Receiver = Ready | Collecting(code: nat, data: seq<byte>) | Violated

  datatype Heard = Heard(receiver: Receiver, messages: seq<Message>)

  const SILENCE := Heard(Ready, [])

  /** Control frames come whole and short, possibly between fragments; a message starts with its code, goes on
      with continuations and ends with FIN; nothing else is allowed. */
  function Hear(h: Heard, f: WsFrame): Heard {
    match h.receiver
    case Violated => h
    case Ready =>
      if f.code in {TEXT, BINARY} then
        if f.fin then h.(messages := h.messages + [Message(f.code, f.payload)])
        else h.(receiver := Collecting(f.code, f.payload))
      else HearControl(h, f)
    case Collecting(code, data) =>
      if f.code == CONT then
        if f.fin then Heard(Ready, h.messages + [Message(code, data + f.payload)])
        else h.(receiver := Collecting(code, data + f.payload))
      else HearControl(h, f)
  }

  function HearControl(h: Heard, f: WsFrame): Heard {
    if f.code in {CLOSE, PING, PONG} && f.fin && |f.payload| <= MAX_CONTROL_PAYLOAD then
      h.(messages := h.messages + [Message(f.code, f.payload)])
    else h.(receiver := Violated)
  }

  function HearAll(h: Heard, frames: seq<WsFrame>): Heard
    decreases |frames|
  {
    if frames == [] then h else HearAll(Hear(h, frames[0]), frames[1..])
  }

  lemma {:induction false} HearAppend(h: Heard, a: seq<WsFrame>, b: seq<WsFrame>)
    ensures HearAll(h, a + b) == HearAll(HearAll(h, a), b)
    decreases |a|
  {
    hide Hear;
    if a == [] {
      assert a + b == b;
    } else {
      assert (a + b)[0] == a[0] && (a + b)[1..] == a[1..] + b;
      HearAppend(Hear(h, a[0]), a[1..], b);
    }
  }

  lemma HearOne(h: Heard, f: WsFrame)
    ensures HearAll(h, [f]) == Hear(h, f)
  {
    assert [f][1..] == [];
  }

  // ----- one message -----

  /** Continuations add their bytes to the message begun, and complete it exactly when FIN was asked for. */
  lemma {:induction false} ContinuationsCollect(h: Heard, fin: bool, data: seq<byte>, size: nat)
    requires h.receiver.Collecting? && size > 0
    ensures var all := h.receiver.data + data;
            HearAll(h, Fragments(CONT, fin, data, size))
            == if fin then Heard(Ready, h.messages + [Message(h.receiver.code, all)])
               else Heard(Collecting(h.receiver.code, all), h.messages)
    decreases |data|
  {
    if |data| <= size {
      HearOne(h, WsFrame(fin, CONT, data));
    } else {
      var f := WsFrame(false, CONT, data[..size]);
      HearOne(h, f);
      HearAppend(h, [f], Fragments(CONT, fin, data[size..], size));
      ContinuationsCollect(Hear(h, f), fin, data[size..], size);
      assert h.receiver.data + data[..size] + data[size..] == h.receiver.data + data;
    }
  }

  /** Section 5.4, for every message and buffer size: the fragments of a text or binary message are that message,
      once, whole, complete exactly when FIN was asked for. */
  lemma FragmentsAreTheMessage(h: Heard, code: nat, fin: bool, data: seq<byte>, size: nat)
    requires h.receiver.Ready? && code in {TEXT, BINARY} && size > 0
    ensures HearAll(h, Fragments(code, fin, data, size))
         == if fin then Heard(Ready, h.messages + [Message(code, data)])
            else Heard(Collecting(code, data), h.messages)
  {
    if |data| <= size {
      HearOne(h, WsFrame(fin, code, data));
    } else {
      var f := WsFrame(false, code, data[..size]);
      HearOne(h, f);
      HearAppend(h, [f], Fragments(CONT, fin, data[size..], size));
      ContinuationsCollect(Hear(h, f), fin, data[size..], size);
      assert data[..size] + data[size..] == data;
    }
  }

  function Payloads(frames: seq<WsFrame>): seq<byte> {
    if frames == [] then [] else frames[0].payload + Payloads(frames[1..])
  }

  /** The shape of the fragments: they concatenate to the data; only the first carries the code, only the last
      FIN; all but the last are full. */
  ghost predicate Shaped(frames: seq<WsFrame>, code: nat, fin: bool, data: seq<byte>, size: nat) {
    && Payloads(frames) == data
    && (forall i :: 0 <= i < |frames| ==> frames[i].code == if i == 0 then code else CONT)
    && (forall i :: 0 <= i < |frames| ==> frames[i].fin == (fin && i == |frames| - 1))
    && (forall i :: 0 <= i < |frames| - 1 ==> |frames[i].payload| == size)
  }

  lemma {:induction false} FragmentsAreShaped(code: nat, fin: bool, data: seq<byte>, size: nat)
    requires size > 0
    ensures Shaped(Fragments(code, fin, data, size), code, fin, data, size)
    decreases |data|
  {
    if |data| <= size {
      assert Payloads([WsFrame(fin, code, data)]) == data + Payloads([]);
    } else {
      var later := Fragments(CONT, fin, data[size..], size);
      var f := WsFrame(false, code, data[..size]);
      FragmentsAreShaped(CONT, fin, data[size..], size);
      var all := [f] + later;
      assert all[1..] == later && data[..size] + data[size..] == data;
      forall i | 1 <= i < |all| ensures all[i] == later[i - 1] {
      }
    }
  }

  /** There are max(1, ceil(len / size)) of them. */
  lemma {:induction false} FragmentCount(code: nat, fin: bool, data: seq<byte>, size: nat)
    requires size > 0
    ensures var n := |Fragments(code, fin, data, size)|;
            if data == [] then n == 1 else (n - 1) * size < |data| <= n * size
    decreases |data|
  {
    if |data| > size {
      FragmentCount(CONT, fin, data[size..], size);
      var n := |Fragments(CONT, fin, data[size..], size)|;
      assert (n - 1) * size + size == n * size && n * size + size == (n + 1) * size;
    }
  }

  /** A send that fails part-way delivers nothing: the receiver is left waiting for the rest, in good order. */
  lemma {:induction false} CutContinuationsDeliverNothing(h: Heard, data: seq<byte>, size: nat, k: nat)
    requires h.receiver.Collecting? && size > 0 && k < |Fragments(CONT, true, data, size)|
    ensures var r := HearAll(h, Fragments(CONT, true, data, size)[..k]);
            r.messages == h.messages && r.receiver.Collecting?
    decreases |data|
  {
    var frames := Fragments(CONT, true, data, size);
    if k > 0 {
      var f := frames[0];
      var later := Fragments(CONT, true, data[size..], size);
      assert frames[..k] == [f] + later[..k - 1];
      HearOne(h, f);
      HearAppend(h, [f], later[..k - 1]);
      CutContinuationsDeliverNothing(Hear(h, f), data[size..], size, k - 1);
    }
  }

  lemma CutMessageDeliversNothing(h: Heard, code: nat, data: seq<byte>, size: nat, k: nat)
    requires h.receiver.Ready? && code in {TEXT, BINARY} && size > 0 && k < |Fragments(code, true, data, size)|
    ensures var r := HearAll(h, Fragments(code, true, data, size)[..k]);
            r.messages == h.messages && (if k == 0 then r.receiver.Ready? else r.receiver.Collecting?)
  {
    var frames := Fragments(code, true, data, size);
    if k > 0 {
      var f := frames[0];
      var later := Fragments(CONT, true, data[size..], size);
      assert frames[..k] == [f] + later[..k - 1];
      HearOne(h, f);
      HearAppend(h, [f], later[..k - 1]);
      CutContinuationsDeliverNothing(Hear(h, f), data[size..], size, k - 1);
    }
  }

  /** Sending text or binary: with the transport answering as it will, the peer gets the message if the call
      reports its length, and no message otherwise. */
  lemma SendIsAllOrNothing(h: Heard, code: nat, data: seq<byte>, size: nat, outcomes: nat -> Outcome)
    requires h.receiver.Ready? && code in {TEXT, BINARY} && size > 0
    ensures var frames := FramesOf(code + FIN, data, size);
            var k := Passed(outcomes, 0, frames);
            HearAll(h, frames[..k]).messages == h.messages + if k == |frames| then [Message(code, data)] else []
  {
    var frames := FramesOf(code + FIN, data, size);
    assert frames == Fragments(code, true, data, size);
    var k := Passed(outcomes, 0, frames);
    if k == |frames| {
      assert frames[..k] == frames;
      FragmentsAreTheMessage(h, code, true, data, size);
    } else {
      CutMessageDeliversNothing(h, code, data, size, k);
    }
  }

  // ----- what a caller of send_text or send_bin gets -----

  /** Frame number k of a message of len bytes exists: its first byte does, or it is the only one. */
  predicate HasFrame(k: nat, len: nat, size: nat) {
    k == 0 || k * size < len
  }

  /** The transport takes a frame of a message of len bytes. */
  predicate Takes(o: Outcome, len: nat) {
    o.Whole? || (len == 0 && o.code == 0)
  }

  /** It takes them all. */
  ghost predicate TakesAll(outcomes: nat -> Outcome, len: nat, size: nat) {
    forall k: nat :: HasFrame(k, len, size) ==> Takes(outcomes(k), len)
  }

  ghost predicate AllAccepted(outcomes: nat -> Outcome, k: nat, frames: seq<WsFrame>) {
    forall i :: 0 <= i < |frames| ==> Accepted(outcomes(k + i), frames[i])
  }

  lemma {:induction false} PassedAllIff(outcomes: nat -> Outcome, k: nat, frames: seq<WsFrame>)
    ensures Passed(outcomes, k, frames) == |frames| <==> AllAccepted(outcomes, k, frames)
    decreases |frames|
  {
    hide Accepted;
    if frames != [] {
      PassedAllIff(outcomes, k + 1, frames[1..]);
      AcceptedOneMore(outcomes, k, frames);
      hide AllAccepted;
    }
  }

  lemma AcceptedOneMore(outcomes: nat -> Outcome, k: nat, frames: seq<WsFrame>)
    requires frames != []
    ensures AllAccepted(outcomes, k, frames)
       <==> Accepted(outcomes(k), frames[0]) && AllAccepted(outcomes, k + 1, frames[1..])
  {
    hide Accepted;
    var later := frames[1..];
    if AllAccepted(outcomes, k, frames) {
      forall i | 0 <= i < |later| ensures Accepted(outcomes(k + 1 + i), later[i]) {
        assert later[i] == frames[i + 1];
        assert Accepted(outcomes(k + (i + 1)), frames[i + 1]);
      }
    } else if Accepted(outcomes(k), frames[0]) {
      var i :| 0 <= i < |frames| && !Accepted(outcomes(k + i), frames[i]);
      assert i > 0 && frames[i] == later[i - 1];
      assert k + 1 + (i - 1) == k + i;
    }
  }

  /** Only the empty message has an empty fragment. */
  lemma {:induction false} FragmentsCarry(code: nat, fin: bool, data: seq<byte>, size: nat)
    requires size > 0
    ensures forall f :: f in Fragments(code, fin, data, size) ==> (f.payload == [] <==> data == [])
    decreases |data|
  {
    if |data| > size {
      FragmentsCarry(CONT, fin, data[size..], size);
    }
  }

  /** Fragment number k exists exactly if its first byte does. */
  lemma FragmentExistsIff(code: nat, fin: bool, data: seq<byte>, size: nat, k: nat)
    requires size > 0
    ensures k < |Fragments(code, fin, data, size)| <==> HasFrame(k, |data|, size)
  {
    FragmentCount(code, fin, data, size);
    var n := |Fragments(code, fin, data, size)|;
    if k < n {
      Grows(k, n - 1, size);
    } else {
      Grows(n, k, size);
    }
  }

  lemma Grows(a: nat, b: nat, size: nat)
    requires a <= b
    ensures a * size <= b * size
  {
  }

  lemma AllPassIff(code: nat, data: seq<byte>, size: nat, outcomes: nat -> Outcome)
    requires code in {TEXT, BINARY} && size > 0
    ensures var frames := FramesOf(code + FIN, data, size);
            Passed(outcomes, 0, frames) == |frames| <==> TakesAll(outcomes, |data|, size)
  {
    var frames := FramesOf(code + FIN, data, size);
    assert frames == Fragments(code, true, data, size);
    hide FramesOf, Fragments, Passed;
    PassedAllIff(outcomes, 0, frames);
    FragmentsCarry(code, true, data, size);
    forall k: nat ensures k < |frames| <==> HasFrame(k, |data|, size) {
      FragmentExistsIff(code, true, data, size, k);
    }
    AcceptedIsTaken(frames, data, outcomes);
    AllTakenIff(frames, data, size, outcomes);
  }

  lemma AcceptedIsTaken(frames: seq<WsFrame>, data: seq<byte>, outcomes: nat -> Outcome)
    requires forall f :: f in frames ==> (f.payload == [] <==> data == [])
    ensures forall i: nat :: i < |frames| ==> (Accepted(outcomes(i), frames[i]) <==> Takes(outcomes(i), |data|))
  {
    forall i: nat | i < |frames| ensures Accepted(outcomes(i), frames[i]) <==> Takes(outcomes(i), |data|) {
      assert frames[i] in frames;
    }
  }

  lemma AllTakenIff(frames: seq<WsFrame>, data: seq<byte>, size: nat, outcomes: nat -> Outcome)
    requires forall k: nat :: k < |frames| <==> HasFrame(k, |data|, size)
    requires forall i: nat :: i < |frames| ==> (Accepted(outcomes(i), frames[i]) <==> Takes(outcomes(i), |data|))
    ensures AllAccepted(outcomes, 0, frames) <==> TakesAll(outcomes, |data|, size)
  {
    hide Accepted, Takes, HasFrame;
    if AllAccepted(outcomes, 0, frames) {
      forall k: nat | HasFrame(k, |data|, size) ensures Takes(outcomes(k), |data|) {
        assert k < |frames|;
        assert Accepted(outcomes(0 + k), frames[k]);
      }
    } else {
      var i :| 0 <= i < |frames| && !Accepted(outcomes(0 + i), frames[i]);
      assert HasFrame(i, |data|, size) && !Takes(outcomes(i), |data|);
    }
  }

  /** esp_websocket_client_send_text and send_bin: a client that is not connected or has no transport, a negative
      length, bytes from nowhere, a lock or buffer that is not to be had, each give -1 and send nothing; otherwise the
      call returns the length if and only if the transport takes every frame, and the peer has got exactly the
      message then, and no message if not. */
  method SendMessage(client: Client, code: nat, data: array?<byte>, len: int, lockGranted: bool, bufferGranted: bool,
                     outcomes: nat -> Outcome)
    returns (ret: int)
    requires code in {TEXT, BINARY} && client.bufferSize > 0 && client.txBuffer.Length == client.bufferSize
    requires data != client.txBuffer && (data != null ==> len <= data.Length)
    modifies client, client.txBuffer
    ensures (old(client.state) != Connected || !old(client.hasTransport) || len < 0 || (data == null && len > 0)
             || !lockGranted || !bufferGranted) ==>
      && ret == -1 && client.wire == old(client.wire) && client.events == old(client.events)
      && client.state == old(client.state)
    ensures (old(client.state) == Connected && old(client.hasTransport) && len >= 0 && (data == null ==> len == 0)
             && lockGranted && bufferGranted) ==>
      var bytes := if data == null then [] else old(data[..len]);
      && old(client.wire) <= client.wire
      && (ret == len <==> TakesAll(outcomes, len, client.bufferSize))
      && HearAll(SILENCE, client.wire[|old(client.wire)|..]).messages
         == (if ret == len then [Message(code, bytes)] else [])
      && (ret == len ==> client.state == Connected && client.events == old(client.events))
      && (ret != len ==> ret <= 0 && client.events == old(client.events) + [ErrorEvent, Disconnected]
                         && client.state == if client.autoReconnect then WaitTimeout else Unknown)
  {
    ghost var bytes := if data == null || len < 0 then [] else data[..len];
    ghost var before := client.wire;
    ret := client.SendWithExactOpcode(code + FIN, data, len, lockGranted, bufferGranted, outcomes);
    if old(client.state) == Connected && old(client.hasTransport) && len >= 0 && (data == null ==> len == 0)
        && lockGranted && bufferGranted {
      SendIsAllOrNothing(SILENCE, code, bytes, client.bufferSize, outcomes);
      AllPassIff(code, bytes, client.bufferSize, outcomes);
      ghost var frames := FramesOf(code + FIN, bytes, client.bufferSize);
      ghost var k := Passed(outcomes, 0, frames);
      assert client.wire[|before|..] == frames[..k];
      FailureIsNotTheLength(code, bytes, client.bufferSize, outcomes);
    }
  }

  /** What a failed send returns is not the length. */
  lemma FailureIsNotTheLength(code: nat, data: seq<byte>, size: nat, outcomes: nat -> Outcome)
    requires code in {TEXT, BINARY} && size > 0
    ensures var frames := FramesOf(code + FIN, data, size);
            var k := Passed(outcomes, 0, frames);
            k < |frames| ==> 0 - outcomes(k).code != |data|
  {
    var frames := FramesOf(code + FIN, data, size);
    var k := Passed(outcomes, 0, frames);
    if k < |frames| && data == [] {
      FirstFailure(outcomes, 0, frames);
      FragmentsCarry(code, true, data, size);
      assert frames[k] in frames;
    }
  }

  lemma {:induction false} FirstFailure(outcomes: nat -> Outcome, k: nat, frames: seq<WsFrame>)
    ensures var n := Passed(outcomes, k, frames);
            n < |frames| ==> !Accepted(outcomes(k + n), frames[n])
    decreases |frames|
  {
    if frames != [] && Accepted(outcomes(k), frames[0]) {
      FirstFailure(outcomes, k + 1, frames[1..]);
    }
  }

  // ----- a message sent in parts -----

  /** The frames of one send_cont_msg call per part. */
  function ContFrames(parts: seq<seq<byte>>, size: nat): seq<WsFrame>
    requires size > 0
  {
    if parts == [] then [] else FramesOf(CONT, parts[0], size) + ContFrames(parts[1..], size)
  }

  lemma {:induction false} PartsCollect(h: Heard, parts: seq<seq<byte>>, size: nat)
    requires h.receiver.Collecting? && size > 0
    ensures HearAll(h, ContFrames(parts, size))
         == Heard(Collecting(h.receiver.code, h.receiver.data + Joined(parts)), h.messages)
    decreases |parts|
  {
    if parts == [] {
      assert h.receiver.data + Joined(parts) == h.receiver.data;
    } else {
      var frames := FramesOf(CONT, parts[0], size);
      HearAppend(h, frames, ContFrames(parts[1..], size));
      var m := HearAll(h, frames);
      if parts[0] == [] {
        assert parts[0] + Joined(parts[1..]) == Joined(parts[1..]);
      } else {
        ContinuationsCollect(h, false, parts[0], size);
        assert h.receiver.data + parts[0] + Joined(parts[1..]) == h.receiver.data + Joined(parts);
      }
      PartsCollect(m, parts[1..], size);
    }
  }

  /** send_text_partial, any number of send_cont_msg, send_fin: one message, the parts joined, whatever their sizes
      and the buffer size. */
  lemma PartsAreOneMessage(h: Heard, code: nat, first: seq<byte>, parts: seq<seq<byte>>, size: nat)
    requires h.receiver.Ready? && code in {TEXT, BINARY} && size > 0
    ensures HearAll(h, FramesOf(code, first, size) + ContFrames(parts, size) + FramesOf(FIN, [], size))
         == Heard(Ready, h.messages + [Message(code, first + Joined(parts))])
  {
    var a, b, c := FramesOf(code, first, size), ContFrames(parts, size), FramesOf(FIN, [], size);
    HearAppend(h, a + b, c);
    HearAppend(h, a, b);
    FragmentsAreTheMessage(h, code, false, first, size);
    PartsCollect(HearAll(h, a), parts, size);
    ContinuationsCollect(HearAll(HearAll(h, a), b), true, [], size);
    assert first + Joined(parts) + [] == first + Joined(parts);
  }

  /** The lock covers one call, not a message sent in parts: a whole message in between breaks the protocol. */
  lemma SendBetweenPartsViolates(h: Heard, code: nat, data: seq<byte>, size: nat)
    requires h.receiver.Collecting? && code in {TEXT, BINARY} && size > 0
    ensures HearAll(h, FramesOf(code + FIN, data, size)).receiver.Violated?
  {
    var frames := Fragments(code, true, data, size);
    assert frames == [frames[0]] + frames[1..];
    HearOne(h, frames[0]);
    HearAppend(h, [frames[0]], frames[1..]);
    ViolationLasts(Hear(h, frames[0]), frames[1..]);
  }

  lemma {:induction false} ViolationLasts(h: Heard, frames: seq<WsFrame>)
    requires h.receiver.Violated?
    ensures HearAll(h, frames) == h
    decreases |frames|
  {
    if frames != [] {
      ViolationLasts(h, frames[1..]);
    }
  }

  // ----- control frames -----

  /** Section 5.5 forbids fragmented control frames, and the send loop fragments those too: a close, ping or pong
      sent through it is lawful exactly when its body fits both the buffer and 125 bytes. */
  lemma ControlIsLawfulIffItFits(h: Heard, code: nat, data: seq<byte>, size: nat)
    requires !h.receiver.Violated? && code in {CLOSE, PING, PONG} && size > 0
    ensures !HearAll(h, FramesOf(code + FIN, data, size)).receiver.Violated?
        <==> |data| <= size && |data| <= MAX_CONTROL_PAYLOAD
    ensures |data| <= size && |data| <= MAX_CONTROL_PAYLOAD ==>
              HearAll(h, FramesOf(code + FIN, data, size)) == h.(messages := h.messages + [Message(code, data)])
  {
    var frames := Fragments(code, true, data, size);
    if |data| <= size {
      HearOne(h, frames[0]);
    } else {
      assert frames == [frames[0]] + frames[1..];
      HearOne(h, frames[0]);
      HearAppend(h, [frames[0]], frames[1..]);
      ViolationLasts(Hear(h, frames[0]), frames[1..]);
    }
  }

  /** A close frame with a two-byte status, sent through a one-byte buffer, breaks the protocol. */
  lemma CloseThroughSmallBufferViolates()
    ensures HearAll(SILENCE, FramesOf(CLOSE + FIN, [0x03, 0xE8], 1)).receiver.Violated?
  {
    ControlIsLawfulIffItFits(SILENCE, CLOSE, [0x03, 0xE8], 1);
  }

  // ----- the numbers on the wire -----

  /** The opcode bytes of section 5.2 of RFC 6455: 0x81 text, 0x82 binary, 0x80 a last continuation; 0x88, 0x89, 0x8A
      close, ping and pong, whose bodies end at 125 bytes. */
  lemma OpcodesAreThoseOfTheStandard(data: seq<byte>, size: nat)
    requires 0 < |data| <= size
    ensures TEXT + FIN == 0x81 && BINARY + FIN == 0x82 && CONT + FIN == 0x80
    ensures CLOSE + FIN == 0x88 && PING + FIN == 0x89 && PONG + FIN == 0x8A
    ensures FramesOf(0x81, data, size) == [WsFrame(true, 1, data)]
    ensures FramesOf(0x82, data, size) == [WsFrame(true, 2, data)]
    ensures FramesOf(0x01, data, size) == [WsFrame(false, 1, data)]
    ensures FramesOf(0x80, data, size) == [WsFrame(true, 0, data)]
    ensures forall h: Heard, code: nat :: h.receiver.Ready? && code in {1, 2} ==>
              Hear(h, WsFrame(true, code, data)) == h.(messages := h.messages + [Message(code, data)])
    ensures forall h: Heard, code: nat :: !h.receiver.Violated? && code in {8, 9, 10} ==>
              Hear(h, WsFrame(true, code, data))
              == if |data| <= 125 then h.(messages := h.messages + [Message(code, data)]) else h.(receiver := Violated)
    ensures forall h: Heard, code: nat, fin: bool :: code !in {0, 1, 2, 8, 9, 10} ==>
              Hear(h, WsFrame(fin, code, data)).receiver.Violated?
  {
  }

  // ----- many calls -----

  datatype Sent = Sent(code: nat, data: seq<byte>)

  function Wire(calls: seq<Sent>, size: nat): seq<WsFrame>
    requires size > 0
  {
    if calls == [] then [] else FramesOf(calls[0].code + FIN, calls[0].data, size) + Wire(calls[1..], size)
  }

  function Messages(calls: seq<Sent>): seq<Message> {
    if calls == [] then [] else [Message(calls[0].code, calls[0].data)] + Messages(calls[1..])
  }

  /** Data of any length, control bodies that fit. */
  predicate Lawful(c: Sent, size: nat) {
    c.code in {TEXT, BINARY} || (c.code in {CLOSE, PING, PONG} && |c.data| <= size && |c.data| <= MAX_CONTROL_PAYLOAD)
  }

  lemma CallArrives(h: Heard, c: Sent, size: nat)
    requires h.receiver.Ready? && size > 0 && Lawful(c, size)
    ensures HearAll(h, FramesOf(c.code + FIN, c.data, size)) == Heard(Ready, h.messages + [Message(c.code, c.data)])
  {
    if c.code in {TEXT, BINARY} {
      FragmentsAreTheMessage(h, c.code, true, c.data, size);
    } else {
      ControlIsLawfulIffItFits(h, c.code, c.data, size);
    }
  }

  predicate AllLawful(calls: seq<Sent>, size: nat) {
    calls == [] || (Lawful(calls[0], size) && AllLawful(calls[1..], size))
  }

  lemma OneMoreCall(h: Heard, c: Sent, frames: seq<WsFrame>, size: nat, messages: seq<Message>)
    requires h.receiver.Ready? && size > 0 && Lawful(c, size)
    requires var m := Message(c.code, c.data);
             HearAll(Heard(Ready, h.messages + [m]), frames) == Heard(Ready, h.messages + [m] + messages)
    ensures HearAll(h, FramesOf(c.code + FIN, c.data, size) + frames)
         == Heard(Ready, h.messages + ([Message(c.code, c.data)] + messages))
  {
    hide FramesOf, HearAll, Lawful;
    CallArrives(h, c, size);
    HearAppend(h, FramesOf(c.code + FIN, c.data, size), frames);
    assert h.messages + [Message(c.code, c.data)] + messages == h.messages + ([Message(c.code, c.data)] + messages);
  }

  /** Calls are serialised by the lock, so whole messages arrive one for one, in order, unaltered. */
  lemma {:induction false} CallsArriveInOrder(h: Heard, calls: seq<Sent>, size: nat)
    requires h.receiver.Ready? && size > 0 && AllLawful(calls, size)
    ensures HearAll(h, Wire(calls, size)) == Heard(Ready, h.messages + Messages(calls))
    decreases |calls|
  {
    hide FramesOf, Hear, Lawful;
    if calls == [] {
      assert h.messages + Messages(calls) == h.messages;
    } else {
      var c, later := calls[0], calls[1..];
      CallsArriveInOrder(Heard(Ready, h.messages + [Message(c.code, c.data)]), later, size);
      OneMoreCall(h, c, Wire(later, size), size, Messages(later));
    }
  }
}
