/** From UART bytes to polled events: the rx task parsing, the frame queue, the decoder task and the two event
    queues, interleaved at every parser iteration. */
module EndToEnd {
  import opened Protocol
  import opened ParserMachine
  import opened ParserSafety
  import opened Decoder
  import opened EventQueue

  const MAX_FRAMES_IN_QUEUE: nat := 40

  /** A frame body under way; tag is the number of the parser event it came from. */
  datatype Parcel = Parcel(tag: nat, body: seq<byte>)

  /** An event as queued, with the tag of the frame it was decoded from. */
  datatype Item = Item(tag: nat, event: AppEvent)

  datatype Hand = Nothing | Holding(parcel: Parcel)

  /** What the rx task has read from the UART. read: all of it. origin: for each byte that reached the parser, its
      position in read. gaps: where in the parser's stream a chunk is missing that was read and then dropped.
      saving: the size of the buffer into which the core copies a chunk before it parses it. */
  datatype Intake = Intake(read: seq<byte>, origin: seq<nat>, gaps: set<nat>, saving: nat)

  /** stream: the bytes that reached the parser. */
  datatype System = System(
    intake: Intake, stream: seq<byte>, lo: nat, core: Config,
    frames: seq<Parcel>, hand: Hand,
    reports: Window<Item>, responses: Window<Item>)

  /** What can happen next. Chunk: the rx task reads bytes and hands them to the core, which needs memory if its saving
      buffer is too small for them; room says whether it would get it. Parse: one parser iteration, with the allocator's
      answers. Take: the decoder task takes a frame, if it gets memory for its copy. Handle: it decodes that
      frame and queues the event, if it gets memory for it. */
  datatype Action =
    | Chunk(bytes: seq<byte>, room: bool)
    | Parse(grow: bool, frame: bool, restart: bool)
    | Take(granted: bool)
    | Handle(granted: bool)
    | PollReport
    | PollResponse

  function Push(w: Window<Item>, i: Item): Window<Item>
    requires w.queued <= |w.pushed|
  {
    if w.queued < CAPACITY then Send(w, i) else Send(DropOldest(w), i)
  }

  function Queueable(s: System): bool {
    |s.frames| < MAX_FRAMES_IN_QUEUE
  }

  /** A chunk read goes to the parser, or it does not. */
  function Keep(i: Intake, bytes: seq<byte>): Intake {
    Intake(i.read + bytes, i.origin + seq(|bytes|, k => |i.read| + k), i.gaps,
           if |bytes| > i.saving then |bytes| else i.saving)
  }

  function Lose(i: Intake, bytes: seq<byte>): Intake {
    i.(read := i.read + bytes, gaps := i.gaps + {|i.origin|})
  }

  /** A chunk that cannot be saved is dropped, and the parser stays as it is. */
  function DoChunk(s: System, bytes: seq<byte>, room: bool): System {
    if |bytes| <= s.intake.saving || room then
      s.(stream := s.stream + bytes, lo := |s.stream|, intake := Keep(s.intake, bytes))
    else s.(intake := Lose(s.intake, bytes))
  }

  /** The parser's iteration; a frame it accepts goes into the frame queue if there is room. */
  function DoParse(s: System, a: Answers): System
    requires s.lo <= s.core.pos < |s.stream|
  {
    var n := Step(AsWritten, a, s.stream, s.lo, s.core);
    var took := |s.core.events| < |n.events| && n.events[|s.core.events|].Accept? && a.frame && a.save
                 && |n.events[|s.core.events|].frame| >= OVERHEAD;
    s.(core := n,
       frames := if took then s.frames + [Parcel(|s.core.events|, Body(n.events[|s.core.events|].frame))] else s.frames)
  }

  function DoHandle(s: System, granted: bool): System
    requires s.hand.Holding? && s.reports.queued <= |s.reports.pushed| && s.responses.queued <= |s.responses.pushed|
  {
    var p := s.hand.parcel;
    var events := Decode(p.body);
    var idle := s.(hand := Nothing);
    if !granted || events == [] then idle
    else if events[0].Report? then idle.(reports := Push(s.reports, Item(p.tag, events[0])))
    else idle.(responses := Push(s.responses, Item(p.tag, events[0])))
  }

  function DoTake(s: System, granted: bool): System
    requires s.frames != []
  {
    s.(frames := s.frames[1..], hand := if granted then Holding(s.frames[0]) else Nothing)
  }

  /** An action that cannot happen changes nothing. */
  function Do(s: System, a: Action): (r: System)
    requires s.reports.queued <= |s.reports.pushed| && s.responses.queued <= |s.responses.pushed|
    ensures r.reports.queued <= |r.reports.pushed| && r.responses.queued <= |r.responses.pushed|
  {
    match a
    case Chunk(bytes, room) =>
      if s.core.crashed || s.core.pos != |s.stream| then s else DoChunk(s, bytes, room)
    case Parse(grow, frame, restart) =>
      if s.core.crashed || !(s.lo <= s.core.pos < |s.stream|) then s
      else DoParse(s, Answers(grow, frame, Queueable(s), restart))
    case Take(granted) =>
      if s.hand.Holding? || s.frames == [] then s
      else DoTake(s, granted)
    case Handle(granted) => if s.hand.Nothing? then s else DoHandle(s, granted)
    case PollReport => if s.reports.queued == 0 then s else s.(reports := PollOldest(s.reports))
    case PollResponse => if s.responses.queued == 0 then s else s.(responses := PollOldest(s.responses))
  }

  function RunSystem(s: System, actions: seq<Action>): (r: System)
    requires s.reports.queued <= |s.reports.pushed| && s.responses.queued <= |s.responses.pushed|
    ensures r.reports.queued <= |r.reports.pushed| && r.responses.queued <= |r.responses.pushed|
    decreases |actions|
  {
    if actions == [] then s else RunSystem(Do(s, actions[0]), actions[1..])
  }

  const START := System(Intake([], [], {}, 0), [], 0, INITIAL, [], Nothing, EmptyWindow(), EmptyWindow())

  // ----- the invariant -----

  /** Parser event number tag is an accepted frame with this body. */
  predicate Carries(c: Config, tag: nat, body: seq<byte>) {
    && tag < |c.events| && c.events[tag].Accept? && c.events[tag].fate.Taken? && |c.events[tag].frame| >= OVERHEAD
    && body == Body(c.events[tag].frame)
  }

  /** The frames between parser and decoder, oldest first. */
  function Trail(s: System): seq<Parcel> {
    (if s.hand.Holding? then [s.hand.parcel] else []) + s.frames
  }

  predicate Ascending(trail: seq<Parcel>) {
    forall i, j :: 0 <= i < j < |trail| ==> trail[i].tag < trail[j].tag
  }

  /** Item i is the decoding of an accepted frame older than everything in trail. */
  ghost predicate Decoded(c: Config, trail: seq<Parcel>, i: Item) {
    && i.tag < |c.events| && c.events[i.tag].Accept? && c.events[i.tag].fate.Taken?
    && |c.events[i.tag].frame| >= OVERHEAD
    && Decode(Body(c.events[i.tag].frame)) == [i.event]
    && forall p :: p in trail ==> i.tag < p.tag
  }

  ghost predicate Faithful(c: Config, trail: seq<Parcel>, w: Window<Item>) {
    && Accounted(w)
    && (forall i :: i in w.pushed ==> Decoded(c, trail, i))
    && (forall i, j :: 0 <= i < j < |w.pushed| ==> w.pushed[i].tag < w.pushed[j].tag)
  }

  ghost predicate GoodTrail(c: Config, trail: seq<Parcel>) {
    Ascending(trail) && forall p :: p in trail ==> Carries(c, p.tag, p.body)
  }

  ghost predicate GoodQueues(c: Config, trail: seq<Parcel>, reports: Window<Item>, responses: Window<Item>) {
    && Faithful(c, trail, reports) && Faithful(c, trail, responses)
    && (forall i :: i in reports.pushed ==> i.event.Report?)
    && (forall i :: i in responses.pushed ==> i.event.Response?)
  }

  ghost predicate Good(s: System) {
    && Sound(s.stream, s.core) && s.lo <= s.core.pos
    && GoodTrail(s.core, Trail(s)) && |s.frames| <= MAX_FRAMES_IN_QUEUE
    && GoodQueues(s.core, Trail(s), s.reports, s.responses)
  }

  /** More events and later frames under way leave what was decoded so far decoded. */
  lemma StaysFaithful(c: Config, trail: seq<Parcel>, n: Config, now: seq<Parcel>, w: Window<Item>)
    requires Faithful(c, trail, w) && c.events <= n.events
    requires forall p :: p in now ==> p in trail || p.tag >= |c.events|
    ensures Faithful(n, now, w)
  {
    forall i | i in w.pushed ensures Decoded(n, now, i) {
      assert Decoded(c, trail, i);
      assert n.events[i.tag] == c.events[i.tag];
    }
  }

  lemma PushIsFaithful(c: Config, trail: seq<Parcel>, w: Window<Item>, i: Item)
    requires Faithful(c, trail, w) && Decoded(c, trail, i)
    requires forall j :: j in w.pushed ==> j.tag < i.tag
    ensures Faithful(c, trail, Push(w, i)) && Push(w, i).pushed == w.pushed + [i]
  {
    hide Decoded;
    if w.queued < CAPACITY {
      SendIsAccounted(w, i);
    } else {
      TakeIsAccounted(w);
      SendIsAccounted(DropOldest(w), i);
    }
  }

  /** What one parser iteration adds: at most one event, which is accepted if its body is queued. */
  lemma ParseAdds(s: System, a: Answers)
    requires Good(s) && s.lo <= s.core.pos < |s.stream| && a.save == Queueable(s)
    ensures var n := DoParse(s, a);
            && n.stream == s.stream && n.lo == s.lo && n.hand == s.hand
            && n.reports == s.reports && n.responses == s.responses
            && Sound(n.stream, n.core) && s.core.events <= n.core.events && n.lo <= n.core.pos
            && (n.frames == s.frames
                || exists body :: n.frames == s.frames + [Parcel(|s.core.events|, body)]
                                  && Carries(n.core, |s.core.events|, body))
            && |n.frames| <= MAX_FRAMES_IN_QUEUE
  {
    var n := Step(AsWritten, a, s.stream, s.lo, s.core);
    StepIsSound(AsWritten, a, s.stream, s.lo, s.core);
    if Completes(s.stream, s.core) {
      StepDecides(AsWritten, a, s.stream, s.lo, s.core);
      var e := n.events[|s.core.events|];
      if DoParse(s, a).frames != s.frames {
        assert Carries(n, |s.core.events|, Body(e.frame));
      }
    } else {
      StepMoves(AsWritten, a, s.stream, s.lo, s.core);
    }
  }

  lemma QueuesStayGood(c: Config, trail: seq<Parcel>, n: Config, now: seq<Parcel>, reports: Window<Item>,
      responses: Window<Item>)
    requires GoodQueues(c, trail, reports, responses) && c.events <= n.events
    requires forall p :: p in now ==> p in trail || p.tag >= |c.events|
    ensures GoodQueues(n, now, reports, responses)
  {
    StaysFaithful(c, trail, n, now, reports);
    StaysFaithful(c, trail, n, now, responses);
  }

  /** A frame queued behind the trail carries the newest event. */
  lemma TrailGrows(c: Config, trail: seq<Parcel>, n: Config, body: seq<byte>)
    requires GoodTrail(c, trail) && c.events <= n.events
    ensures GoodTrail(n, trail)
    ensures Carries(n, |c.events|, body) ==> GoodTrail(n, trail + [Parcel(|c.events|, body)])
  {
    forall p | p in trail ensures Carries(n, p.tag, p.body) && p.tag < |c.events| {
      assert Carries(c, p.tag, p.body);
      assert n.events[p.tag] == c.events[p.tag];
    }
  }

  lemma TrailShrinks(c: Config, trail: seq<Parcel>)
    requires GoodTrail(c, trail) && trail != []
    ensures GoodTrail(c, trail[1..]) && forall p :: p in trail[1..] ==> p in trail && trail[0].tag < p.tag
  {
  }

  lemma ParseIsGood(s: System, a: Answers)
    requires Good(s) && s.lo <= s.core.pos < |s.stream| && a.save == Queueable(s)
    ensures Good(DoParse(s, a))
  {
    hide DoParse, Sound, GoodQueues, GoodTrail, Carries, Queueable;
    var n := DoParse(s, a);
    ParseAdds(s, a);
    if n.frames == s.frames {
      TrailGrows(s.core, Trail(s), n.core, []);
      assert Trail(n) == Trail(s);
    } else {
      var body :| n.frames == s.frames + [Parcel(|s.core.events|, body)] && Carries(n.core, |s.core.events|, body);
      TrailGrows(s.core, Trail(s), n.core, body);
      assert Trail(n) == Trail(s) + [Parcel(|s.core.events|, body)];
    }
    QueuesStayGood(s.core, Trail(s), n.core, Trail(n), s.reports, s.responses);
  }

  /** Taking a frame, or losing it for want of memory, only shortens the trail. */
  lemma TakeIsGood(s: System, granted: bool)
    requires Good(s) && s.hand.Nothing? && s.frames != []
    ensures Good(DoTake(s, granted))
  {
    var n := DoTake(s, granted);
    hide Sound, GoodQueues, GoodTrail;
    assert Trail(s) == s.frames;
    if granted {
      assert Trail(n) == Trail(s);
    } else {
      assert Trail(n) == Trail(s)[1..];
      TrailShrinks(s.core, Trail(s));
    }
    QueuesStayGood(s.core, Trail(s), n.core, Trail(n), s.reports, s.responses);
  }

  /** The frame in hand is the oldest of the trail, so it may be decoded and queued behind everything queued. */
  lemma HandIsNext(s: System)
    requires Good(s) && s.hand.Holding?
    ensures var (p, rest) := (s.hand.parcel, s.frames);
            && Carries(s.core, p.tag, p.body) && GoodTrail(s.core, rest)
            && (forall q :: q in rest ==> p.tag < q.tag)
            && GoodQueues(s.core, rest, s.reports, s.responses)
  {
    hide Sound, GoodQueues, Carries;
    assert Trail(s)[0] == s.hand.parcel && Trail(s)[1..] == s.frames;
    assert s.hand.parcel in Trail(s);
    TrailShrinks(s.core, Trail(s));
    QueuesStayGood(s.core, Trail(s), s.core, s.frames, s.reports, s.responses);
  }

  lemma OneEvent(body: seq<byte>)
    ensures Decode(body) == [] || Decode(body) == [Decode(body)[0]]
  {
    DecodingIsSingleValued(body);
  }

  /** Everything already queued was decoded from older frames than the one in hand. */
  lemma QueuedIsOlder(s: System)
    requires Good(s) && s.hand.Holding?
    ensures forall j :: j in s.reports.pushed || j in s.responses.pushed ==> j.tag < s.hand.parcel.tag
  {
    hide Sound, GoodTrail, Accounted, Decode;
    assert Trail(s)[0] == s.hand.parcel;
    forall j | j in s.reports.pushed || j in s.responses.pushed ensures j.tag < s.hand.parcel.tag {
      assert Decoded(s.core, Trail(s), j);
    }
  }

  lemma PushOneGood(c: Config, trail: seq<Parcel>, reports: Window<Item>, responses: Window<Item>, i: Item)
    requires GoodQueues(c, trail, reports, responses) && Decoded(c, trail, i)
    requires forall j :: j in reports.pushed || j in responses.pushed ==> j.tag < i.tag
    ensures i.event.Report? ==> GoodQueues(c, trail, Push(reports, i), responses)
    ensures i.event.Response? ==> GoodQueues(c, trail, reports, Push(responses, i))
  {
    hide Decoded, Push, Increasing, Decode;
    PushIsFaithful(c, trail, reports, i);
    PushIsFaithful(c, trail, responses, i);
    hide Accounted, Faithful;
  }

  lemma HandleIsGood(s: System, granted: bool)
    requires Good(s) && s.hand.Holding?
    ensures Good(DoHandle(s, granted))
  {
    var n := DoHandle(s, granted);
    var p := s.hand.parcel;
    OneEvent(p.body);
    HandIsNext(s);
    QueuedIsOlder(s);
    hide Sound, Decode, GoodTrail, GoodQueues, Push;
    assert Trail(n) == s.frames;
    if granted && Decode(p.body) != [] {
      var i := Item(p.tag, Decode(p.body)[0]);
      assert Decoded(s.core, s.frames, i);
      PushOneGood(s.core, s.frames, s.reports, s.responses, i);
    }
  }

  lemma PollIsGood(s: System, a: Action)
    requires Good(s) && (a.PollReport? || a.PollResponse?)
    ensures Good(Do(s, a))
  {
    hide Sound;
    if s.reports.queued > 0 {
      TakeIsAccounted(s.reports);
    }
    if s.responses.queued > 0 {
      TakeIsAccounted(s.responses);
    }
    hide Accounted, Decoded;
  }

  lemma DoIsGood(s: System, a: Action)
    requires Good(s)
    ensures Good(Do(s, a))
  {
    match a
    case Chunk(bytes, _) =>
      SoundExtends(s.stream, bytes, s.core);
    case Parse(grow, frame, restart) =>
      if !s.core.crashed && s.core.pos < |s.stream| {
        ParseIsGood(s, Answers(grow, frame, Queueable(s), restart));
      }
    case Take(granted) =>
      if s.hand.Nothing? && s.frames != [] {
        TakeIsGood(s, granted);
      }
    case Handle(granted) =>
      if s.hand.Holding? {
        HandleIsGood(s, granted);
      }
    case PollReport => PollIsGood(s, a);
    case PollResponse => PollIsGood(s, a);
  }

  lemma {:induction false} RunIsGood(s: System, actions: seq<Action>)
    requires Good(s)
    ensures Good(RunSystem(s, actions))
    decreases |actions|
  {
    if actions != [] {
      DoIsGood(s, actions[0]);
      RunIsGood(Do(s, actions[0]), actions[1..]);
    }
  }

  lemma EmptyIsFaithful(c: Config, trail: seq<Parcel>)
    ensures Faithful(c, trail, EmptyWindow())
  {
  }

  lemma StartIsGood()
    ensures Good(START) && AllAccountable(START)
  {
    InitialIsSound([]);
    hide Sound, Decoded, Carries, Accountable, Faithful;
    assert Trail(START) == [];
    EmptyIsFaithful(INITIAL, []);
  }

  // ----- the end-to-end claim -----

  /** The k-th event handed to a poller of w. */
  function Polled(w: Window<Item>, k: nat): Item
    requires k < |w.polled| && w.polled[k] < |w.pushed|
  {
    w.pushed[w.polled[k]]
  }

  /** Position, among the bytes parsed, where the frame behind item i begins, and just behind its end. */
  function Begins(c: Config, i: Item): nat
    requires i.tag < |c.events|
  {
    c.events[i.tag].start
  }

  function Ends(c: Config, i: Item): nat
    requires i.tag < |c.events|
  {
    c.events[i.tag].start + |c.events[i.tag].frame|
  }

  /** i is exactly what one well-formed segment of the bytes parsed decodes to. */
  ghost predicate FromTheWire(s: seq<byte>, c: Config, i: Item) {
    && i.tag < |c.events| && Ends(c, i) <= |s|
    && var f := s[Begins(c, i)..Ends(c, i)];
       WellFormed(f) && Decode(Body(f)) == [i.event]
  }

  ghost predicate TruthfulPolls(s: System, w: Window<Item>) {
    && (forall k :: 0 <= k < |w.polled| ==> w.polled[k] < |w.pushed| && FromTheWire(s.stream, s.core, Polled(w, k)))
    && (forall j, k :: 0 <= j < k < |w.polled| ==> Before(s.core, Polled(w, j), Polled(w, k)))
  }

  ghost predicate Before(c: Config, a: Item, b: Item) {
    a.tag < |c.events| && b.tag < |c.events| && Ends(c, a) <= Begins(c, b)
  }

  lemma DecodedIsFromTheWire(s: System, trail: seq<Parcel>, i: Item)
    requires Sound(s.stream, s.core) && Decoded(s.core, trail, i)
    ensures FromTheWire(s.stream, s.core, i)
  {
    hide Decode, Sum, Body, Tail, Ordered, Capacity;
    assert Genuine(s.stream, s.core.events[i.tag]);
  }

  lemma DecodedInOrder(s: System, trail: seq<Parcel>, a: Item, b: Item)
    requires Sound(s.stream, s.core) && Decoded(s.core, trail, a) && Decoded(s.core, trail, b) && a.tag < b.tag
    ensures Before(s.core, a, b)
  {
    hide Tail, Capacity, Genuine, Decode;
    assert After(s.core.events[a.tag]) <= s.core.events[b.tag].start;
  }

  lemma PollsAreTruthful(s: System, w: Window<Item>)
    requires Good(s) && Faithful(s.core, Trail(s), w)
    ensures TruthfulPolls(s, w)
  {
    hide Sound, GoodQueues, GoodTrail, Decoded, FromTheWire, Before;
    forall k | 0 <= k < |w.polled|
      ensures w.polled[k] < |w.pushed| && FromTheWire(s.stream, s.core, Polled(w, k))
    {
      assert w.polled[k] in w.polled;
      assert Polled(w, k) in w.pushed;
      DecodedIsFromTheWire(s, Trail(s), Polled(w, k));
    }
    forall j, k | 0 <= j < k < |w.polled|
      ensures Before(s.core, Polled(w, j), Polled(w, k))
    {
      assert Polled(w, j) in w.pushed && Polled(w, k) in w.pushed;
      DecodedInOrder(s, Trail(s), Polled(w, j), Polled(w, k));
    }
  }

  /** In every interleaving, whatever the bytes, chunk sizes and refusals, and however full the event queues: the
      reports polled, and likewise the responses polled, are the decodings of well-formed segments of the bytes
      parsed, one segment each, and their segments are disjoint and in stream order. The bytes parsed are those read
      from the UART less the chunks dropped; LostChunks says when such a segment is one of the UART's. */
  lemma PolledEventsComeFromTheWire(actions: seq<Action>)
    ensures var s := RunSystem(START, actions);
            && TruthfulPolls(s, s.reports) && (forall i :: i in s.reports.pushed ==> i.event.Report?)
            && TruthfulPolls(s, s.responses) && (forall i :: i in s.responses.pushed ==> i.event.Response?)
  {
    StartIsGood();
    RunIsGood(START, actions);
    hide RunSystem, Sound, TruthfulPolls, Faithful, GoodTrail;
    var s := RunSystem(START, actions);
    PollsAreTruthful(s, s.reports);
    PollsAreTruthful(s, s.responses);
  }

  // ----- what a step gets done -----

  /** A good frame that gets memory is queued if and only if fewer than 40 are in the frame queue. */
  lemma GoodFrameIsQueuedIffRoom(s: System, grow: bool, restart: bool)
    requires s.reports.queued <= |s.reports.pushed| && s.responses.queued <= |s.responses.pushed|
    requires Good(s) && !s.core.crashed && Completes(s.stream, s.core)
    requires WellFormed(s.stream[Start(s.core)..s.core.pos + 1])
    ensures var body := Body(s.stream[Start(s.core)..s.core.pos + 1]);
            Do(s, Parse(grow, true, restart)).frames
            == s.frames + if |s.frames| < 40 then [Parcel(|s.core.events|, body)] else []
  {
    hide WellFormed, Sound, GoodTrail, GoodQueues;
    StepDecides(AsWritten, Answers(grow, true, Queueable(s), restart), s.stream, s.lo, s.core);
  }

  /** A poll hands out the oldest event queued, and there is none exactly if all were polled or dropped. */
  lemma PollGetsTheOldest(s: System)
    requires Good(s)
    ensures var (w, n) := (s.reports, Do(s, PollReport).reports);
            && n.pushed == w.pushed && n.dropped == w.dropped
            && n.polled == w.polled + if |w.polled| + |w.dropped| < |w.pushed| then [|w.polled| + |w.dropped|] else []
    ensures var (w, n) := (s.responses, Do(s, PollResponse).responses);
            && n.pushed == w.pushed && n.dropped == w.dropped
            && n.polled == w.polled + if |w.polled| + |w.dropped| < |w.pushed| then [|w.polled| + |w.dropped|] else []
  {
    hide Sound, GoodTrail, Decoded, Increasing;
  }

  /** Without memory for its copy the frame taken is lost, without memory for its event the frame in hand; an event is
      dropped only from a queue of 200, the oldest. */
  lemma WhatTheDecoderLoses(s: System)
    requires Good(s)
    ensures s.hand.Nothing? && s.frames != [] ==>
              && Trail(Do(s, Take(false))) == Trail(s)[1..] && Trail(Do(s, Take(true))) == Trail(s)
    ensures s.hand.Holding? ==>
              && Trail(Do(s, Handle(false))) == Trail(s)[1..]
              && Do(s, Handle(false)).reports == s.reports && Do(s, Handle(false)).responses == s.responses
    ensures s.hand.Holding? ==>
              var z := Do(s, Handle(true));
              && (z.reports.dropped != s.reports.dropped ==> s.reports.queued == 200)
              && (z.responses.dropped != s.responses.dropped ==> s.responses.queued == 200)
  {
    hide Sound, GoodTrail, Decoded, Increasing, Decode;
  }

  /** The decoder task's turn: what it holds is decoded, then the next frame is taken. */
  function Pump(n: nat): seq<Action> {
    if n == 0 then [] else [Handle(true), Take(true)] + Pump(n - 1)
  }

  lemma PumpOnce(s: System)
    requires s.reports.queued <= |s.reports.pushed| && s.responses.queued <= |s.responses.pushed|
    ensures var n := Do(Do(s, Handle(true)), Take(true));
            n.frames == (if s.frames == [] then [] else s.frames[1..]) && (s.frames == [] ==> n.hand.Nothing?)
  {
    hide Decode, Push;
  }

  /** Given its turns and its memory, the decoder task gets through everything under way: one turn for each frame in
      the queue and one for the frame in hand. */
  lemma {:induction false} PipelineDrains(s: System, n: nat)
    requires s.reports.queued <= |s.reports.pushed| && s.responses.queued <= |s.responses.pushed|
    requires n > |s.frames|
    ensures Trail(RunSystem(s, Pump(n))) == []
    decreases n
  {
    hide Do;
    PumpOnce(s);
    assert Pump(n)[1..] == [Take(true)] + Pump(n - 1) && ([Take(true)] + Pump(n - 1))[1..] == Pump(n - 1);
    var z := Do(Do(s, Handle(true)), Take(true));
    if n > 1 {
      PipelineDrains(z, n - 1);
    } else {
      assert RunSystem(z, Pump(0)) == z;
    }
  }

  // ----- nothing goes missing between the queues -----

  /** The memory requests of the decoder task are granted. */
  predicate Generous(a: Action) {
    (a.Take? ==> a.granted) && (a.Handle? ==> a.granted)
  }

  ghost predicate UnderWay(trail: seq<Parcel>, tag: nat) {
    exists p :: p in trail && p.tag == tag
  }

  ghost predicate Pushed(w: Window<Item>, tag: nat) {
    exists i :: i in w.pushed && i.tag == tag
  }

  /** A frame the frame queue took is still under way, or its event was queued, or it decodes to none. */
  ghost predicate Accountable(s: System, tag: nat)
    requires tag < |s.core.events|
  {
    var e := s.core.events[tag];
    e.Accept? && e.fate.Taken? && |e.frame| >= OVERHEAD ==>
      UnderWay(Trail(s), tag) || Pushed(s.reports, tag) || Pushed(s.responses, tag) || Decode(Body(e.frame)) == []
  }

  ghost predicate AllAccountable(s: System) {
    forall tag: nat :: tag < |s.core.events| ==> Accountable(s, tag)
  }

  /** If frames under way and events pushed only move forward, accounts stay settled. */
  lemma AccountsCarryOver(s: System, n: System, tag: nat)
    requires tag < |s.core.events| && Accountable(s, tag) && s.core.events <= n.core.events
    requires forall p :: p in Trail(s) ==> p in Trail(n)
    requires s.reports.pushed <= n.reports.pushed && s.responses.pushed <= n.responses.pushed
    ensures Accountable(n, tag)
  {
    assert n.core.events[tag] == s.core.events[tag];
  }

  lemma ParseKeeps(s: System, a: Answers)
    requires Good(s) && s.lo <= s.core.pos < |s.stream| && a.save == Queueable(s)
    ensures var n := DoParse(s, a);
            && (forall p :: p in Trail(s) ==> p in Trail(n)) && s.core.events <= n.core.events
            && s.reports == n.reports && s.responses == n.responses
  {
    hide Good, DoParse, Sound, Carries, Queueable;
    ParseAdds(s, a);
  }

  lemma ParseSettles(s: System, a: Answers)
    requires Good(s) && AllAccountable(s) && s.lo <= s.core.pos < |s.stream| && a.save == Queueable(s)
    ensures AllAccountable(DoParse(s, a))
  {
    hide DoParse, Good, Accountable, Trail, Queueable;
    var n := DoParse(s, a);
    ParseKeeps(s, a);
    NewEventIsQueued(s, a);
    forall tag: nat | tag < |n.core.events| ensures Accountable(n, tag) {
      if tag < |s.core.events| {
        AccountsCarryOver(s, n, tag);
      }
    }
  }

  lemma NewEventIsQueued(s: System, a: Answers)
    requires Good(s) && s.lo <= s.core.pos < |s.stream| && a.save == Queueable(s)
    ensures var n := DoParse(s, a);
            && |n.core.events| <= |s.core.events| + 1
            && (|s.core.events| < |n.core.events| ==> Accountable(n, |s.core.events|))
  {
    var n := DoParse(s, a);
    if Completes(s.stream, s.core) {
      StepDecides(AsWritten, a, s.stream, s.lo, s.core);
      hide Sound, Step, Decode;
      var k := |s.core.events|;
      var e := n.core.events[k];
      if e.Accept? && e.fate.Taken? && |e.frame| >= OVERHEAD {
        assert Parcel(k, Body(e.frame)) in Trail(n);
      }
    } else {
      StepMoves(AsWritten, a, s.stream, s.lo, s.core);
    }
  }

  lemma HandedOnStays(s: System, n: System, tag: nat)
    requires s.hand.Holding? && Trail(n) == s.frames && tag != s.hand.parcel.tag
    ensures UnderWay(Trail(s), tag) ==> UnderWay(Trail(n), tag)
  {
    if UnderWay(Trail(s), tag) {
      var q :| q in Trail(s) && q.tag == tag;
      assert q in s.frames;
    }
  }

  lemma HandleSettles(s: System)
    requires Good(s) && AllAccountable(s) && s.hand.Holding?
    ensures AllAccountable(DoHandle(s, true))
  {
    hide Sound, GoodTrail, Decoded, DoHandle, Decode;
    var n := DoHandle(s, true);
    PushedGrows(s, n);
    HandIsNext(s);
    forall tag: nat | tag < |n.core.events| ensures Accountable(n, tag) {
      assert Accountable(s, tag);
      if tag != s.hand.parcel.tag {
        HandedOnStays(s, n, tag);
      }
    }
  }

  lemma PushAppends(w: Window<Item>, i: Item)
    requires w.queued <= |w.pushed|
    ensures Push(w, i).pushed == w.pushed + [i]
  {
  }

  lemma PushedGrows(s: System, n: System)
    requires Good(s) && s.hand.Holding? && n == DoHandle(s, true)
    ensures s.reports.pushed <= n.reports.pushed && s.responses.pushed <= n.responses.pushed
    ensures Decode(s.hand.parcel.body) != [] ==>
              Pushed(n.reports, s.hand.parcel.tag) || Pushed(n.responses, s.hand.parcel.tag)
    ensures Trail(n) == s.frames && n.core == s.core
  {
    hide Sound, Decode, GoodTrail, Decoded, Push;
    var p := s.hand.parcel;
    if Decode(p.body) != [] {
      var i := Item(p.tag, Decode(p.body)[0]);
      PushAppends(s.reports, i);
      PushAppends(s.responses, i);
      assert i in n.reports.pushed || i in n.responses.pushed;
    }
  }

  lemma DoSettles(s: System, a: Action)
    requires Good(s) && AllAccountable(s) && Generous(a)
    ensures AllAccountable(Do(s, a))
  {
    var n := Do(s, a);
    if a.Parse? && n != s {
      ParseSettles(s, Answers(a.grow, a.frame, Queueable(s), a.restart));
    } else if a.Handle? && n != s {
      HandleSettles(s);
    } else {
      hide Good, Accountable;
      if a.Take? && n != s {
        assert Trail(n) == Trail(s);
      }
      forall tag: nat | tag < |n.core.events| ensures Accountable(n, tag) {
        AccountsCarryOver(s, n, tag);
      }
    }
  }

  lemma {:induction false} RunSettles(s: System, actions: seq<Action>)
    requires Good(s) && AllAccountable(s) && forall a :: a in actions ==> Generous(a)
    ensures AllAccountable(RunSystem(s, actions))
    decreases |actions|
  {
    if actions != [] {
      DoIsGood(s, actions[0]);
      DoSettles(s, actions[0]);
      RunSettles(Do(s, actions[0]), actions[1..]);
    }
  }

  /** In every interleaving in which the decoder task gets its memory, no frame the frame queue took is lost on
      the way: it is still under way, or its event was queued, or it decodes to nothing. */
  lemma NoFrameGoesMissing(actions: seq<Action>)
    requires forall a :: a in actions ==> Generous(a)
    ensures AllAccountable(RunSystem(START, actions))
  {
    StartIsGood();
    RunSettles(START, actions);
  }
}
