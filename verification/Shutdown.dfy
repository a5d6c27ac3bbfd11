/** The drain-then-stop handshake: interrupt handler, dispatcher task, rx task, tx task, senders and the caller of
    hal_mmwave_stop, interleaved between any two accesses to shared state. */
module Shutdown {

  const UART_QUEUE_LEN: nat := 40
  const PLATFORM_QUEUE_LEN: nat := 20
  const TX_QUEUE_LEN: nat := 40

  /** The two tests that let the dispatcher leave its loop. The source looks at its queue first and at the closed
      flag second (QueueFirst); FlagFirst is the order the rx and tx tasks use for their own exit. */
  datatype Order = QueueFirst | FlagFirst

  /** Data: 1 to 512 received bytes. Skipped: an event type or size the rx task passes over. Ghostly: an event the
      dispatcher does not forward. */
  datatype Kind = Data | Skipped | Ghostly

  datatype UartEvent = UartEvent(kind: Kind, tag: nat)

  datatype DispatcherPc = FirstTest | SecondTest | Receive | Post(e: UartEvent) | SetEnded | DispatcherGone

  datatype RxPc = RxState | RxWait | RxRead(e: UartEvent) | RxParse(e: UartEvent) | RxFlag | RxQueue | RxSet | RxGone

  datatype TxPc = TxState | TxWait | TxWrite(frame: nat) | TxFlag | TxQueue | TxSet | TxGone

  datatype CallerPc =
    | Starting | Idle | Disabling | Closing
    | Polling1 | Polling2 | Polling3 | StoppingCore | Marking | Stopped

  /** A queue with its history: everything put into it, everything taken out, and how much arrived since its
      consumer last looked whether it is empty. */
  datatype Channel<T> = Channel(queue: seq<T>, put: seq<T>, taken: seq<T>, late: nat)

  /** events: from the interrupt handler to the dispatcher. plat: from there to the rx task. frames: from senders
      to the tx task. */
  datatype Queues = Queues(events: Channel<UartEvent>, plat: Channel<UartEvent>, frames: Channel<nat>)

  datatype DispatcherTask = DispatcherTask(pc: DispatcherPc, ended: bool)

  /** parsed: the events whose bytes reached the parser. */
  datatype RxTask = RxTask(pc: RxPc, flag1: bool, parsed: seq<UartEvent>)

  /** written: the frames written to the UART. */
  datatype TxTask = TxTask(pc: TxPc, flag2: bool, written: seq<nat>)

  datatype StopCaller = StopCaller(pc: CallerPc, running: bool, isrOn: bool, rxClosed: bool)

  datatype State = State(dispatcher: DispatcherTask, rx: RxTask, tx: TxTask, caller: StopCaller, queues: Queues)

  /** Isr posts an event, Send queues a frame; the others let one task take its next step. A wait that finds
      nothing is a wait that timed out. */
  datatype Action = Isr(e: UartEvent) | Send(frame: nat) | Dispatcher | Rx(readOk: bool) | Tx | Caller(driverOk: bool)

  const EMPTY := Queues(Channel([], [], [], 0), Channel([], [], [], 0), Channel([], [], [], 0))

  const LAUNCH := State(
    DispatcherTask(FirstTest, false), RxTask(RxState, false, []), TxTask(TxState, false, []),
    StopCaller(Starting, false, true, false), EMPTY)

  /** Put, unless there is no room. */
  function Put<T>(c: Channel<T>, x: T, capacity: nat): Channel<T> {
    if |c.queue| >= capacity then c else Channel(c.queue + [x], c.put + [x], c.taken, c.late + 1)
  }

  function Take<T>(c: Channel<T>): Channel<T> {
    if c.queue == [] then c else c.(queue := c.queue[1..], taken := c.taken + [c.queue[0]])
  }

  /** The consumer looks whether c is empty. */
  function Look<T>(c: Channel<T>): Channel<T> {
    c.(late := |c.queue|)
  }

  function DispatcherNext(order: Order, s: State): DispatcherTask {
    var (d, q) := (s.dispatcher, s.queues.events.queue);
    match d.pc
    case FirstTest =>
      d.(pc := if (if order == QueueFirst then q == [] else s.caller.rxClosed) then SecondTest else Receive)
    case SecondTest =>
      d.(pc := if (if order == QueueFirst then s.caller.rxClosed else q == []) then SetEnded else Receive)
    case Receive => d.(pc := if q == [] then FirstTest else Post(q[0]))
    case Post(_) => d.(pc := FirstTest)
    case SetEnded => DispatcherTask(DispatcherGone, true)
    case DispatcherGone => d
  }

  function DispatcherQueues(order: Order, s: State): Queues {
    var (w, pc) := (s.queues, s.dispatcher.pc);
    if pc.Receive? then w.(events := Take(w.events))
    else if pc.Post? && pc.e.kind != Ghostly then w.(plat := Put(w.plat, pc.e, PLATFORM_QUEUE_LEN))
    else if pc == if order == QueueFirst then FirstTest else SecondTest then w.(events := Look(w.events))
    else w
  }

  function RxNext(s: State, readOk: bool): RxTask {
    var (r, q) := (s.rx, s.queues.plat.queue);
    match r.pc
    case RxState => r.(pc := if s.caller.running then RxWait else RxState)
    case RxWait => r.(pc := if q == [] then RxFlag else if q[0].kind == Data then RxRead(q[0]) else RxState)
    case RxRead(e) => r.(pc := if readOk then RxParse(e) else RxState)
    case RxParse(e) => r.(pc := RxFlag, parsed := r.parsed + [e])
    case RxFlag => r.(pc := if s.dispatcher.ended then RxQueue else RxState)
    case RxQueue => r.(pc := if q == [] then RxSet else RxState)
    case RxSet => r.(pc := RxGone, flag1 := true)
    case RxGone => r
  }

  function RxQueues(s: State): Queues {
    var w := s.queues;
    if s.rx.pc.RxWait? then w.(plat := Take(w.plat)) else w
  }

  function TxNext(s: State): TxTask {
    var (t, q) := (s.tx, s.queues.frames.queue);
    match t.pc
    case TxState => t.(pc := if s.caller.running then TxWait else TxState)
    case TxWait => t.(pc := if q == [] then TxFlag else TxWrite(q[0]))
    case TxWrite(frame) => t.(pc := TxFlag, written := t.written + [frame])
    case TxFlag => t.(pc := if s.dispatcher.ended then TxQueue else TxState)
    case TxQueue => t.(pc := if q == [] then TxSet else TxState)
    case TxSet => t.(pc := TxGone, flag2 := true)
    case TxGone => t
  }

  function TxQueues(s: State): Queues {
    var w := s.queues;
    if s.tx.pc.TxWait? then w.(frames := Take(w.frames))
    else if s.tx.pc.TxQueue? then w.(frames := Look(w.frames))
    else w
  }

  function CallerNext(s: State, driverOk: bool): StopCaller {
    var c := s.caller;
    match c.pc
    case Starting => c.(pc := Idle, running := true)
    case Idle => c.(pc := Disabling)
    case Disabling => if driverOk then c.(pc := Closing, isrOn := false) else c.(pc := Idle)
    case Closing => c.(pc := Polling1, rxClosed := true)
    case Polling1 => c.(pc := if s.rx.flag1 then Polling2 else Polling1)
    case Polling2 => c.(pc := if s.tx.flag2 then Polling3 else Polling1)
    case Polling3 => c.(pc := if s.dispatcher.ended then StoppingCore else Polling1)
    case StoppingCore => c.(pc := Marking)
    case Marking => c.(pc := Stopped, running := false)
    case Stopped => c
  }

  function IsrQueues(s: State, e: UartEvent): Queues {
    if s.caller.isrOn then s.queues.(events := Put(s.queues.events, e, UART_QUEUE_LEN)) else s.queues
  }

  /** Frames are taken while the HAL is initialised or running, not once it is stopped. */
  function SendQueues(s: State, frame: nat): Queues {
    if s.caller.pc.Starting? || s.caller.running then s.queues.(frames := Put(s.queues.frames, frame, TX_QUEUE_LEN))
    else s.queues
  }

  function Do(order: Order, s: State, a: Action): State {
    match a
    case Isr(e) => s.(queues := IsrQueues(s, e))
    case Send(frame) => s.(queues := SendQueues(s, frame))
    case Dispatcher => s.(dispatcher := DispatcherNext(order, s), queues := DispatcherQueues(order, s))
    case Rx(readOk) => s.(rx := RxNext(s, readOk), queues := RxQueues(s))
    case Tx => s.(tx := TxNext(s), queues := TxQueues(s))
    case Caller(driverOk) => s.(caller := CallerNext(s, driverOk))
  }

  function Run(order: Order, s: State, actions: seq<Action>): State
    decreases |actions|
  {
    if actions == [] then s else Run(order, Do(order, s, actions[0]), actions[1..])
  }

  // ----- what every step keeps -----

  predicate Leaving(pc: DispatcherPc) {
    pc.SetEnded? || pc.DispatcherGone?
  }

  predicate DispatcherSafe(order: Order, d: DispatcherTask, rxClosed: bool, events: Channel<UartEvent>) {
    && (d.ended <==> d.pc.DispatcherGone?)
    && (Leaving(d.pc) ==> rxClosed)
    && (order == QueueFirst && (d.pc.SecondTest? || Leaving(d.pc)) ==> |events.queue| == events.late)
    && (order == FlagFirst && d.pc.SecondTest? ==> rxClosed)
    && (order == FlagFirst && Leaving(d.pc) ==> events.queue == [])
  }

  predicate RxSafe(r: RxTask, ended: bool, plat: Channel<UartEvent>) {
    && (r.flag1 <==> r.pc.RxGone?)
    && (r.pc.RxQueue? ==> ended)
    && (r.pc.RxSet? || r.pc.RxGone? ==> ended && plat.queue == [])
  }

  predicate TxSafe(t: TxTask, ended: bool, frames: Channel<nat>) {
    && (t.flag2 <==> t.pc.TxGone?)
    && (t.pc.TxQueue? ==> ended)
    && (t.pc.TxSet? || t.pc.TxGone? ==> ended && |frames.queue| == frames.late)
    && frames.taken == t.written + if t.pc.TxWrite? then [t.pc.frame] else []
  }

  /** How far the stop caller has come. */
  function Stage(pc: CallerPc): nat {
    match pc
    case Starting => 0
    case Idle => 1
    case Disabling => 2
    case Closing => 3
    case Polling1 => 4
    case Polling2 => 5
    case Polling3 => 6
    case StoppingCore => 7
    case Marking => 8
    case Stopped => 9
  }

  predicate CallerSafe(c: StopCaller, flag1: bool, flag2: bool, ended: bool) {
    var stage := Stage(c.pc);
    && (c.isrOn <==> stage < 3)
    && (c.rxClosed <==> stage >= 4)
    && (stage >= 5 ==> flag1)
    && (stage >= 6 ==> flag2)
    && (stage >= 7 ==> ended)
    && (c.running <==> 1 <= stage <= 8)
  }

  /** Nothing is lost, duplicated or reordered inside a queue. */
  predicate Conserved<T(==)>(c: Channel<T>, capacity: nat) {
    c.put == c.taken + c.queue && |c.queue| <= capacity
  }

  predicate AllConserved(w: Queues) {
    Conserved(w.events, UART_QUEUE_LEN) && Conserved(w.plat, PLATFORM_QUEUE_LEN) && Conserved(w.frames, TX_QUEUE_LEN)
  }

  predicate Safe(order: Order, s: State) {
    && DispatcherSafe(order, s.dispatcher, s.caller.rxClosed, s.queues.events)
    && RxSafe(s.rx, s.dispatcher.ended, s.queues.plat)
    && TxSafe(s.tx, s.dispatcher.ended, s.queues.frames)
    && CallerSafe(s.caller, s.rx.flag1, s.tx.flag2, s.dispatcher.ended)
    && AllConserved(s.queues)
  }

  lemma DispatcherStaysSafe(order: Order, s: State, a: Action)
    requires Safe(order, s)
    ensures var r := Do(order, s, a);
            DispatcherSafe(order, r.dispatcher, r.caller.rxClosed, r.queues.events)
  {
    hide RxSafe, TxSafe, AllConserved;
  }

  lemma RxStaysSafe(order: Order, s: State, a: Action)
    requires Safe(order, s)
    ensures var r := Do(order, s, a);
            RxSafe(r.rx, r.dispatcher.ended, r.queues.plat)
  {
    hide TxSafe, AllConserved, CallerSafe;
  }

  lemma TxStaysSafe(order: Order, s: State, a: Action)
    requires Safe(order, s)
    ensures var r := Do(order, s, a);
            TxSafe(r.tx, r.dispatcher.ended, r.queues.frames)
  {
    hide RxSafe, AllConserved, CallerSafe;
  }

  lemma CallerStaysSafe(order: Order, s: State, a: Action)
    requires Safe(order, s)
    ensures var r := Do(order, s, a);
            CallerSafe(r.caller, r.rx.flag1, r.tx.flag2, r.dispatcher.ended)
  {
    hide RxSafe, TxSafe, AllConserved;
  }

  lemma ChannelStaysConserved<T>(c: Channel<T>, x: T, capacity: nat)
    requires Conserved(c, capacity)
    ensures Conserved(Put(c, x, capacity), capacity) && Conserved(Look(c), capacity) && Conserved(Take(c), capacity)
  {
  }

  lemma QueuesStayConserved(order: Order, s: State, a: Action)
    requires AllConserved(s.queues)
    ensures AllConserved(Do(order, s, a).queues)
  {
    hide Conserved, Put, Take, Look, DispatcherNext, RxNext, TxNext, CallerNext;
    var (w, pc) := (s.queues, s.dispatcher.pc);
    ChannelStaysConserved(w.events, if a.Isr? then a.e else UartEvent(Data, 0), UART_QUEUE_LEN);
    ChannelStaysConserved(w.plat, if pc.Post? then pc.e else UartEvent(Data, 0), PLATFORM_QUEUE_LEN);
    ChannelStaysConserved(w.frames, if a.Send? then a.frame else 0, TX_QUEUE_LEN);
  }

  lemma {:induction false} RunIsSafe(order: Order, s: State, actions: seq<Action>)
    requires Safe(order, s)
    ensures Safe(order, Run(order, s, actions))
    decreases |actions|
  {
    hide Do, DispatcherSafe, RxSafe, TxSafe, CallerSafe, AllConserved;
    if actions != [] {
      DispatcherStaysSafe(order, s, actions[0]);
      RxStaysSafe(order, s, actions[0]);
      TxStaysSafe(order, s, actions[0]);
      CallerStaysSafe(order, s, actions[0]);
      QueuesStayConserved(order, s, actions[0]);
      RunIsSafe(order, Do(order, s, actions[0]), actions[1..]);
    }
  }

  lemma {:induction false} RunAppend(order: Order, s: State, first: seq<Action>, second: seq<Action>)
    ensures Run(order, s, first + second) == Run(order, Run(order, s, first), second)
    decreases |first|
  {
    hide Do;
    if first == [] {
      assert first + second == second;
    } else {
      assert (first + second)[0] == first[0] && (first + second)[1..] == first[1..] + second;
      RunAppend(order, Do(order, s, first[0]), first[1..], second);
    }
  }

  // ----- what was received reaches the parser -----

  /** The entries of xs whose mark is true. */
  function Selected(xs: seq<UartEvent>, marks: seq<bool>): seq<UartEvent>
    requires |xs| == |marks|
  {
    if xs == [] then []
    else
      var n := |xs| - 1;
      Selected(xs[..n], marks[..n]) + if marks[n] then [xs[n]] else []
  }

  function DataOnly(xs: seq<UartEvent>): seq<UartEvent> {
    if xs == [] then [] else DataOnly(xs[..|xs| - 1]) + if xs[|xs| - 1].kind == Data then [xs[|xs| - 1]] else []
  }

  function Forwardable(xs: seq<UartEvent>): seq<UartEvent> {
    if xs == [] then [] else Forwardable(xs[..|xs| - 1]) + if xs[|xs| - 1].kind == Ghostly then [] else [xs[|xs| - 1]]
  }

  lemma SelectedSnoc(xs: seq<UartEvent>, marks: seq<bool>, x: UartEvent, mark: bool)
    requires |xs| == |marks|
    ensures Selected(xs + [x], marks + [mark]) == Selected(xs, marks) + if mark then [x] else []
  {
    assert (xs + [x])[..|xs|] == xs && (marks + [mark])[..|xs|] == marks;
  }

  lemma KindsSnoc(xs: seq<UartEvent>, x: UartEvent)
    ensures DataOnly(xs + [x]) == DataOnly(xs) + if x.kind == Data then [x] else []
    ensures Forwardable(xs + [x]) == Forwardable(xs) + if x.kind == Ghostly then [] else [x]
  {
    assert (xs + [x])[..|xs|] == xs;
  }

  lemma {:induction false} AllSelected(xs: seq<UartEvent>, marks: seq<bool>)
    requires |xs| == |marks| && forall k :: 0 <= k < |marks| ==> marks[k]
    ensures Selected(xs, marks) == xs
  {
    if xs != [] {
      AllSelected(xs[..|xs| - 1], marks[..|xs| - 1]);
    }
  }

  /** What the interrupt handler put into its queue, which holds 40, while receiving was enabled. */
  function Received(order: Order, s: State, actions: seq<Action>): seq<UartEvent>
    decreases |actions|
  {
    if actions == [] then []
    else
      (if actions[0].Isr? && s.caller.isrOn && |s.queues.events.queue| < 40 then [actions[0].e] else [])
      + Received(order, Do(order, s, actions[0]), actions[1..])
  }

  /** The event the rx task is about to read, or has read and is about to parse. */
  function Reading(r: RxTask): seq<UartEvent> {
    if r.pc.RxRead? then [r.pc.e] else []
  }

  function Parsing(r: RxTask): seq<UartEvent> {
    if r.pc.RxParse? then [r.pc.e] else []
  }

  function Posting(d: DispatcherTask): seq<UartEvent> {
    if d.pc.Post? && d.pc.e.kind != Ghostly then [d.pc.e] else []
  }

  /** Of the data events taken, those whose read succeeded were parsed, in order, or are about to be. */
  ghost predicate ParsedAsRead(r: RxTask, taken: seq<UartEvent>, read: seq<UartEvent>, marks: seq<bool>) {
    && |read| == |marks| && DataOnly(taken) == read + Reading(r)
    && r.parsed + Parsing(r) == Selected(read, marks)
  }

  /** Of the events taken that are no ghosts, those that found room were forwarded, in order. */
  ghost predicate ForwardedAsPosted(d: DispatcherTask, taken: seq<UartEvent>, put: seq<UartEvent>,
                                    posted: seq<UartEvent>, marks: seq<bool>) {
    && |posted| == |marks| && Forwardable(taken) == posted + Posting(d)
    && put == Selected(posted, marks)
  }

  /** What the rx task reads in its next step, and with what outcome. */
  function ReadNow(s: State, a: Action): (seq<UartEvent>, seq<bool>) {
    if a.Rx? && s.rx.pc.RxRead? then ([s.rx.pc.e], [a.readOk]) else ([], [])
  }

  function PostNow(s: State, a: Action): (seq<UartEvent>, seq<bool>) {
    if a.Dispatcher? && Posting(s.dispatcher) != [] then ([s.dispatcher.pc.e], [|s.queues.plat.queue| < 20])
    else ([], [])
  }

  /** The data events a run reads from the UART, with the outcomes of the reads; and the events its dispatcher posts,
      with marks that say whether the platform queue, which holds 20, had room. */
  function Reads(order: Order, s: State, actions: seq<Action>): (r: (seq<UartEvent>, seq<bool>))
    ensures |r.0| == |r.1|
    decreases |actions|
  {
    if actions == [] then ([], [])
    else
      var (now, later) := (ReadNow(s, actions[0]), Reads(order, Do(order, s, actions[0]), actions[1..]));
      (now.0 + later.0, now.1 + later.1)
  }

  function Posts(order: Order, s: State, actions: seq<Action>): (r: (seq<UartEvent>, seq<bool>))
    ensures |r.0| == |r.1|
    decreases |actions|
  {
    if actions == [] then ([], [])
    else
      var (now, later) := (PostNow(s, actions[0]), Posts(order, Do(order, s, actions[0]), actions[1..]));
      (now.0 + later.0, now.1 + later.1)
  }

  lemma RxTakes(s: State, readOk: bool, read: seq<UartEvent>, marks: seq<bool>)
    requires ParsedAsRead(s.rx, s.queues.plat.taken, read, marks) && s.rx.pc.RxWait?
    ensures ParsedAsRead(RxNext(s, readOk), RxQueues(s).plat.taken, read, marks)
  {
    hide Selected, DataOnly;
    var plat := s.queues.plat;
    if plat.queue != [] {
      KindsSnoc(plat.taken, plat.queue[0]);
      assert RxQueues(s).plat.taken == plat.taken + [plat.queue[0]];
    }
  }

  lemma RxReads(s: State, readOk: bool, read: seq<UartEvent>, marks: seq<bool>)
    requires ParsedAsRead(s.rx, s.queues.plat.taken, read, marks) && s.rx.pc.RxRead?
    ensures ParsedAsRead(RxNext(s, readOk), s.queues.plat.taken, read + [s.rx.pc.e], marks + [readOk])
  {
    hide Selected, DataOnly;
    SelectedSnoc(read, marks, s.rx.pc.e, readOk);
  }

  lemma RxParses(s: State, readOk: bool, read: seq<UartEvent>, marks: seq<bool>)
    requires ParsedAsRead(s.rx, s.queues.plat.taken, read, marks) && !s.rx.pc.RxWait? && !s.rx.pc.RxRead?
    ensures ParsedAsRead(RxNext(s, readOk), s.queues.plat.taken, read, marks)
  {
    hide Selected, DataOnly;
    var r := RxNext(s, readOk);
    assert Reading(r) == [] && Parsing(r) == [] && r.parsed + [] == r.parsed;
    assert s.rx.parsed + Parsing(s.rx) == r.parsed;
  }

  lemma OthersStandBack(order: Order, s: State, a: Action)
    ensures var r := Do(order, s, a);
            && (!a.Rx? ==> r.rx == s.rx && r.queues.plat.taken == s.queues.plat.taken)
            && (!a.Dispatcher? ==>
                  && r.dispatcher == s.dispatcher && r.queues.events.taken == s.queues.events.taken
                  && r.queues.plat.put == s.queues.plat.put)
  {
    hide TxNext, CallerNext;
  }

  lemma DispatcherTakes(order: Order, s: State, posted: seq<UartEvent>, marks: seq<bool>)
    requires ForwardedAsPosted(s.dispatcher, s.queues.events.taken, s.queues.plat.put, posted, marks)
    requires s.dispatcher.pc.Receive?
    ensures ForwardedAsPosted(DispatcherNext(order, s), Take(s.queues.events).taken, s.queues.plat.put, posted, marks)
  {
    hide Selected, Forwardable;
    var events := s.queues.events;
    if events.queue != [] {
      KindsSnoc(events.taken, events.queue[0]);
    }
  }

  lemma DispatcherPosts(order: Order, s: State, posted: seq<UartEvent>, marks: seq<bool>)
    requires ForwardedAsPosted(s.dispatcher, s.queues.events.taken, s.queues.plat.put, posted, marks)
    requires Posting(s.dispatcher) != []
    ensures var (e, mark) := (s.dispatcher.pc.e, |s.queues.plat.queue| < 20);
            ForwardedAsPosted(DispatcherNext(order, s), s.queues.events.taken, DispatcherQueues(order, s).plat.put,
                              posted + [e], marks + [mark])
  {
    hide Selected, Forwardable;
    SelectedSnoc(posted, marks, s.dispatcher.pc.e, |s.queues.plat.queue| < 20);
  }

  lemma DispatcherStepForwards(order: Order, s: State, posted: seq<UartEvent>, marks: seq<bool>)
    requires ForwardedAsPosted(s.dispatcher, s.queues.events.taken, s.queues.plat.put, posted, marks)
    ensures var (r, (now, mark)) := (Do(order, s, Dispatcher), PostNow(s, Dispatcher));
            ForwardedAsPosted(r.dispatcher, r.queues.events.taken, r.queues.plat.put, posted + now, marks + mark)
  {
    hide Selected, Forwardable;
    assert posted + [] == posted && marks + [] == marks;
    if s.dispatcher.pc.Receive? {
      DispatcherTakes(order, s, posted, marks);
    } else if Posting(s.dispatcher) != [] {
      DispatcherPosts(order, s, posted, marks);
    }
    hide ForwardedAsPosted;
  }

  lemma StepParses(order: Order, s: State, a: Action, read: seq<UartEvent>, marks: seq<bool>)
    requires ParsedAsRead(s.rx, s.queues.plat.taken, read, marks)
    ensures var (r, (now, mark)) := (Do(order, s, a), ReadNow(s, a));
            ParsedAsRead(r.rx, r.queues.plat.taken, read + now, marks + mark)
  {
    hide ParsedAsRead, RxNext, DispatcherNext, TxNext, CallerNext;
    assert read + [] == read && marks + [] == marks;
    if !a.Rx? {
      OthersStandBack(order, s, a);
    } else if s.rx.pc.RxWait? {
      RxTakes(s, a.readOk, read, marks);
    } else if s.rx.pc.RxRead? {
      RxReads(s, a.readOk, read, marks);
    } else {
      RxParses(s, a.readOk, read, marks);
    }
  }

  lemma StepForwards(order: Order, s: State, a: Action, posted: seq<UartEvent>, marks: seq<bool>)
    requires ForwardedAsPosted(s.dispatcher, s.queues.events.taken, s.queues.plat.put, posted, marks)
    ensures var (r, (now, mark)) := (Do(order, s, a), PostNow(s, a));
            ForwardedAsPosted(r.dispatcher, r.queues.events.taken, r.queues.plat.put, posted + now, marks + mark)
  {
    hide Do, ForwardedAsPosted;
    if a.Dispatcher? {
      DispatcherStepForwards(order, s, posted, marks);
    } else {
      OthersStandBack(order, s, a);
      assert posted + [] == posted && marks + [] == marks;
    }
  }

  lemma {:induction false} RunParses(order: Order, s: State, actions: seq<Action>, read: seq<UartEvent>,
                                     marks: seq<bool>)
    requires ParsedAsRead(s.rx, s.queues.plat.taken, read, marks)
    ensures var (r, (now, mark)) := (Run(order, s, actions), Reads(order, s, actions));
            ParsedAsRead(r.rx, r.queues.plat.taken, read + now, marks + mark)
    decreases |actions|
  {
    hide Do, ParsedAsRead, ReadNow;
    if actions == [] {
      assert read + [] == read && marks + [] == marks;
    } else {
      var (z, (now, mark)) := (Do(order, s, actions[0]), ReadNow(s, actions[0]));
      StepParses(order, s, actions[0], read, marks);
      RunParses(order, z, actions[1..], read + now, marks + mark);
      var later := Reads(order, z, actions[1..]);
      assert read + now + later.0 == read + (now + later.0) && marks + mark + later.1 == marks + (mark + later.1);
    }
  }

  lemma {:induction false} RunForwards(order: Order, s: State, actions: seq<Action>, posted: seq<UartEvent>,
                                       marks: seq<bool>)
    requires ForwardedAsPosted(s.dispatcher, s.queues.events.taken, s.queues.plat.put, posted, marks)
    ensures var (r, (now, mark)) := (Run(order, s, actions), Posts(order, s, actions));
            ForwardedAsPosted(r.dispatcher, r.queues.events.taken, r.queues.plat.put, posted + now, marks + mark)
    decreases |actions|
  {
    hide Do, ForwardedAsPosted, PostNow;
    if actions == [] {
      assert posted + [] == posted && marks + [] == marks;
    } else {
      var (z, (now, mark)) := (Do(order, s, actions[0]), PostNow(s, actions[0]));
      StepForwards(order, s, actions[0], posted, marks);
      RunForwards(order, z, actions[1..], posted + now, marks + mark);
      var later := Posts(order, z, actions[1..]);
      assert posted + now + later.0 == posted + (now + later.0) && marks + mark + later.1 == marks + (mark + later.1);
    }
  }

  lemma OneArrives(order: Order, s: State, a: Action)
    ensures Do(order, s, a).queues.events.put
         == s.queues.events.put + if a.Isr? && s.caller.isrOn && |s.queues.events.queue| < 40 then [a.e] else []
    ensures Safe(order, s) ==>
              Do(order, s, a).queues.frames.put
              == s.queues.frames.put
                 + if a.Send? && !s.caller.pc.Stopped? && |s.queues.frames.queue| < 40 then [a.frame] else []
  {
    hide DispatcherNext, RxNext, TxNext, CallerNext, AllConserved, DispatcherSafe, RxSafe, TxSafe;
  }

  lemma {:induction false} RunReceives(order: Order, s: State, actions: seq<Action>)
    ensures Run(order, s, actions).queues.events.put == s.queues.events.put + Received(order, s, actions)
    decreases |actions|
  {
    if actions != [] {
      OneArrives(order, s, actions[0]);
      hide Do;
      RunReceives(order, Do(order, s, actions[0]), actions[1..]);
    }
  }

  /** What senders put into the tx queue, which holds 40, before the HAL was stopped. */
  function Sent(order: Order, s: State, actions: seq<Action>): seq<nat>
    decreases |actions|
  {
    if actions == [] then []
    else
      (if actions[0].Send? && !s.caller.pc.Stopped? && |s.queues.frames.queue| < 40 then [actions[0].frame] else [])
      + Sent(order, Do(order, s, actions[0]), actions[1..])
  }

  lemma {:induction false} RunSends(order: Order, s: State, actions: seq<Action>)
    requires Safe(order, s)
    ensures Run(order, s, actions).queues.frames.put == s.queues.frames.put + Sent(order, s, actions)
    decreases |actions|
  {
    hide Do, Safe;
    if actions != [] {
      OneArrives(order, s, actions[0]);
      OneActionIsSafe(order, s, actions[0]);
      RunSends(order, Do(order, s, actions[0]), actions[1..]);
    }
  }

  /** Every frame sent before the HAL was stopped, if there was room for it, is written, being written or queued, in
      order; and nothing else is written. */
  lemma SentIsWritten(order: Order, actions: seq<Action>)
    ensures var s := Run(order, LAUNCH, actions);
            s.tx.written + (if s.tx.pc.TxWrite? then [s.tx.pc.frame] else []) + s.queues.frames.queue
            == Sent(order, LAUNCH, actions)
  {
    assert Safe(order, LAUNCH);
    RunIsSafe(order, LAUNCH, actions);
    RunSends(order, LAUNCH, actions);
    hide Run, Sent, DispatcherSafe, RxSafe, CallerSafe;
    assert [] + Sent(order, LAUNCH, actions) == Sent(order, LAUNCH, actions);
  }

  /** The way of an event in every interleaving: what arrived while receiving was enabled and there was room is in
      the interrupt handler's queue or was taken by the dispatcher; of what it took, all but ghosts was forwarded if
      there was room; and of the data events the rx task took, all whose read succeeded were parsed. Nothing else
      was, and everything in order. */
  ghost predicate FollowsEvents(order: Order, actions: seq<Action>, s: State) {
    && s.queues.events.taken + s.queues.events.queue == Received(order, LAUNCH, actions)
    && s.queues.plat.taken + s.queues.plat.queue == s.queues.plat.put
    && (var (posted, marks) := Posts(order, LAUNCH, actions);
        ForwardedAsPosted(s.dispatcher, s.queues.events.taken, s.queues.plat.put, posted, marks))
    && (var (read, marks) := Reads(order, LAUNCH, actions);
        ParsedAsRead(s.rx, s.queues.plat.taken, read, marks))
  }

  lemma FollowingBegins(order: Order)
    ensures Safe(order, LAUNCH)
    ensures ParsedAsRead(LAUNCH.rx, [], [], []) && ForwardedAsPosted(LAUNCH.dispatcher, [], [], [], [])
  {
  }

  lemma EventsReachTheParser(order: Order, actions: seq<Action>)
    ensures FollowsEvents(order, actions, Run(order, LAUNCH, actions))
  {
    hide Run, Received, Posts, Reads, DispatcherSafe, RxSafe, TxSafe, CallerSafe, ForwardedAsPosted, ParsedAsRead;
    FollowingBegins(order);
    RunIsSafe(order, LAUNCH, actions);
    RunReceives(order, LAUNCH, actions);
    RunForwards(order, LAUNCH, actions, [], []);
    RunParses(order, LAUNCH, actions, [], []);
    var (posted, posts) := Posts(order, LAUNCH, actions);
    var (read, outcomes) := Reads(order, LAUNCH, actions);
    assert [] + posted == posted && [] + posts == posts && [] + read == read && [] + outcomes == outcomes;
    assert [] + Received(order, LAUNCH, actions) == Received(order, LAUNCH, actions);
  }

  lemma {:induction false} DataIsForwardable(xs: seq<UartEvent>)
    ensures DataOnly(Forwardable(xs)) == DataOnly(xs)
  {
    if xs != [] {
      var (front, x) := (xs[..|xs| - 1], xs[|xs| - 1]);
      DataIsForwardable(front);
      KindsSnoc(Forwardable(front), x);
      assert Forwardable(front) + [] == Forwardable(front) && DataOnly(front) + [] == DataOnly(front);
    }
  }

  predicate All(marks: seq<bool>) {
    forall k :: 0 <= k < |marks| ==> marks[k]
  }

  /** Of what the dispatcher took, everything but ghosts and what found no room was forwarded; of what was forwarded,
      every data event whose read succeeded was parsed. If there was always room and no read failed, exactly the data
      events were parsed. */
  ghost predicate HandledAsReceived(order: Order, actions: seq<Action>, s: State) {
    var (posted, room) := Posts(order, LAUNCH, actions);
    var (read, outcomes) := Reads(order, LAUNCH, actions);
    && posted == Forwardable(s.queues.events.taken) && s.queues.plat.put == Selected(posted, room)
    && read == DataOnly(s.queues.plat.put) && s.rx.parsed == Selected(read, outcomes)
    && (All(room) && All(outcomes) ==> s.rx.parsed == DataOnly(s.queues.events.taken))
  }

  lemma NothingInHand(order: Order, actions: seq<Action>, s: State)
    requires FollowsEvents(order, actions, s) && Quiescent(s)
    ensures HandledAsReceived(order, actions, s)
  {
    hide Posts, Reads, Received, Selected, DataOnly, Forwardable;
    var (posted, room) := Posts(order, LAUNCH, actions);
    var (read, outcomes) := Reads(order, LAUNCH, actions);
    var plat := s.queues.plat;
    assert posted + [] == posted && read + [] == read && s.rx.parsed + [] == s.rx.parsed;
    assert plat.taken + [] == plat.taken;
    if All(room) && All(outcomes) {
      AllSelected(posted, room);
      AllSelected(read, outcomes);
      DataIsForwardable(s.queues.events.taken);
    }
  }

  // ----- before the start, and a stop that is refused -----

  /** The start is not through: neither task has touched a queue. */
  predicate Unstarted(s: State) {
    && s.rx.pc.RxState? && s.tx.pc.TxState? && s.rx.parsed == [] && s.tx.written == []
    && s.queues.plat.taken == [] && s.queues.frames.taken == []
  }

  lemma {:induction false} TasksWaitForTheStart(order: Order, s: State, actions: seq<Action>)
    requires Safe(order, s) && (s.caller.pc.Starting? ==> Unstarted(s))
    ensures Run(order, s, actions).caller.pc.Starting? ==> Unstarted(Run(order, s, actions))
    decreases |actions|
  {
    hide Do, Safe, Unstarted;
    if actions != [] {
      OneActionIsSafe(order, s, actions[0]);
      StepsWaitForTheStart(order, s, actions[0]);
      TasksWaitForTheStart(order, Do(order, s, actions[0]), actions[1..]);
    }
  }

  lemma StepsWaitForTheStart(order: Order, s: State, a: Action)
    requires Safe(order, s) && (s.caller.pc.Starting? ==> Unstarted(s))
    ensures Do(order, s, a).caller.pc.Starting? ==> Unstarted(Do(order, s, a))
  {
    hide AllConserved, DispatcherSafe, RxSafe, TxSafe, DispatcherNext;
  }

  /** In every interleaving, until the start is through the rx and the tx task wait: nothing is read, parsed, taken or
      written. */
  lemma NothingHappensBeforeTheStart(order: Order, actions: seq<Action>)
    ensures var s := Run(order, LAUNCH, actions);
            s.caller.pc.Starting? ==> Unstarted(s)
  {
    assert Safe(order, LAUNCH);
    TasksWaitForTheStart(order, LAUNCH, actions);
  }

  /** A stop that the driver refuses changes nothing: receiving goes on. */
  lemma RefusedStopChangesNothing(order: Order, s: State)
    requires s.caller.pc.Idle?
    ensures Do(order, Do(order, s, Caller(true)), Caller(false)) == s
  {
  }

  // ----- safety of the stop -----

  /** All that the dispatcher will ever forward has been handled, and both tasks are gone. */
  predicate Quiescent(s: State) {
    && s.rx.pc.RxGone? && s.dispatcher.pc.DispatcherGone? && s.tx.pc.TxGone? && !s.caller.isrOn
    && s.queues.plat.queue == [] && s.queues.plat.taken == s.queues.plat.put && Stage(s.caller.pc) >= 7
  }

  /** From s to r nothing was parsed, forwarded or added to the interrupt handler's queue. */
  predicate Frozen(s: State, r: State) {
    && r.rx.parsed == s.rx.parsed && r.queues.plat.put == s.queues.plat.put
    && r.queues.events.queue == s.queues.events.queue
  }

  predicate AtCoreStop(s: State) {
    Stage(s.caller.pc) >= 7
  }

  lemma QuiescenceStays(order: Order, s: State, a: Action)
    requires Quiescent(s)
    ensures var r := Do(order, s, a);
            Quiescent(r) && Frozen(s, r)
  {
  }

  lemma {:induction false} QuiescenceLasts(order: Order, s: State, actions: seq<Action>)
    requires Quiescent(s)
    ensures var r := Run(order, s, actions);
            Quiescent(r) && Frozen(s, r)
    decreases |actions|
  {
    hide Do, Quiescent;
    if actions != [] {
      QuiescenceStays(order, s, actions[0]);
      QuiescenceLasts(order, Do(order, s, actions[0]), actions[1..]);
    }
  }

  /** In every interleaving, mmwave_core_stop is called only after the rx task's last parse and the dispatcher's
      last post: when it is about to run everything received has been handled, the platform queue is empty, and
      nothing is parsed or forwarded ever after. */
  lemma CoreStopsLast(order: Order, actions: seq<Action>, more: seq<Action>)
    requires AtCoreStop(Run(order, LAUNCH, actions))
    ensures var (s, r) := (Run(order, LAUNCH, actions), Run(order, LAUNCH, actions + more));
            Quiescent(s) && Quiescent(r) && Frozen(s, r) && HandledAsReceived(order, actions, s)
  {
    assert Safe(order, LAUNCH);
    hide Run, Do, Quiescent, AtCoreStop, HandledAsReceived, FollowsEvents;
    RunIsSafe(order, LAUNCH, actions);
    EventsReachTheParser(order, actions);
    NothingInHand(order, actions, Run(order, LAUNCH, actions));
    RunAppend(order, LAUNCH, actions, more);
    QuiescenceLasts(order, Run(order, LAUNCH, actions), more);
  }

  /** What a stop leaves behind. Every event posted was received by the dispatcher except those posted after it
      had last found its queue empty, which stay in the queue; with the tests swapped none stay. Every frame sent
      was written except those queued after the tx task had last found its queue empty. */
  predicate LeftBehind(order: Order, s: State) {
    var (events, frames) := (s.queues.events, s.queues.frames);
    && events.put == events.taken + events.queue
    && |events.queue| == (if order == QueueFirst then events.late else 0)
    && frames.put == s.tx.written + frames.queue && |frames.queue| == frames.late
  }

  lemma WhatAStopLeavesBehind(order: Order, actions: seq<Action>)
    requires AtCoreStop(Run(order, LAUNCH, actions))
    ensures LeftBehind(order, Run(order, LAUNCH, actions))
  {
    hide Run;
    assert Safe(order, LAUNCH);
    RunIsSafe(order, LAUNCH, actions);
  }

  // ----- an event can indeed be stranded -----

  const LATE := UartEvent(Data, 0)

  /** It arrives between the dispatcher's two tests, just before the receiver is closed. */
  const ARRIVAL: seq<Action> := [Caller(true), Caller(true), Dispatcher, Isr(LATE)]
  const CLOSING: seq<Action> := [Caller(true), Caller(true), Dispatcher, Dispatcher]
  const RX_EXIT: seq<Action> := [Rx(true), Rx(true), Rx(true), Rx(true)]
  const TX_EXIT: seq<Action> := [Rx(true), Tx, Tx, Tx]
  const POLLS: seq<Action> := [Tx, Tx, Caller(true), Caller(true)]
  const ENDING: seq<Action> := [Caller(true), Caller(true), Caller(true), Dispatcher]

  lemma RunFour(order: Order, s: State, a: Action, b: Action, c: Action, d: Action)
    ensures Run(order, s, [a, b, c, d]) == Do(order, Do(order, Do(order, Do(order, s, a), b), c), d)
  {
    hide Do;
    var (s1, s2) := (Do(order, s, a), Do(order, Do(order, s, a), b));
    assert [a, b, c, d][1..] == [b, c, d] && [b, c, d][1..] == [c, d] && [c, d][1..] == [d] && [d][1..] == [];
    assert Run(order, s, [a, b, c, d]) == Run(order, s1, [b, c, d]);
    assert Run(order, s1, [b, c, d]) == Run(order, s2, [c, d]);
    assert Run(order, s2, [c, d]) == Run(order, Do(order, s2, c), [d]);
    assert Run(order, Do(order, s2, c), [d]) == Run(order, Do(order, Do(order, s2, c), d), []);
  }

  const LATE_ONLY := EMPTY.(events := Channel([LATE], [LATE], [], 1))
  const ARRIVED := State(
    DispatcherTask(SecondTest, false), LAUNCH.rx, LAUNCH.tx, StopCaller(Disabling, true, true, false), LATE_ONLY)
  const CLOSED := State(
    DispatcherTask(DispatcherGone, true), LAUNCH.rx, LAUNCH.tx, StopCaller(Polling1, true, false, true), LATE_ONLY)
  const DRAINED := CLOSED.(rx := RxTask(RxGone, true, []), tx := TxTask(TxQueue, false, []))

  lemma StrandingCloses()
    ensures Run(QueueFirst, Run(QueueFirst, LAUNCH, ARRIVAL), CLOSING) == CLOSED
  {
    hide Run;
    RunFour(QueueFirst, LAUNCH, Caller(true), Caller(true), Dispatcher, Isr(LATE));
    assert Run(QueueFirst, LAUNCH, ARRIVAL) == ARRIVED;
    RunFour(QueueFirst, ARRIVED, Caller(true), Caller(true), Dispatcher, Dispatcher);
  }

  lemma StrandingDrains()
    ensures Run(QueueFirst, Run(QueueFirst, CLOSED, RX_EXIT), TX_EXIT) == DRAINED
  {
    hide Run;
    RunFour(QueueFirst, CLOSED, Rx(true), Rx(true), Rx(true), Rx(true));
    var s := CLOSED.(rx := RxTask(RxSet, false, []));
    assert Run(QueueFirst, CLOSED, RX_EXIT) == s;
    RunFour(QueueFirst, s, Rx(true), Tx, Tx, Tx);
  }

  lemma StrandingStops()
    ensures var s := Run(QueueFirst, Run(QueueFirst, DRAINED, POLLS), ENDING);
            s.caller.pc == Stopped && s.queues.events.queue == [LATE] && s.rx.parsed == []
  {
    hide Run;
    RunFour(QueueFirst, DRAINED, Tx, Tx, Caller(true), Caller(true));
    var s := DRAINED.(tx := TxTask(TxGone, true, []), caller := StopCaller(Polling3, true, false, true));
    assert Run(QueueFirst, DRAINED, POLLS) == s;
    RunFour(QueueFirst, s, Caller(true), Caller(true), Caller(true), Dispatcher);
  }

  lemma StopCanStrandAnEvent()
    ensures var s := Run(QueueFirst, LAUNCH, ARRIVAL + CLOSING + RX_EXIT + TX_EXIT + POLLS + ENDING);
            s.caller.pc == Stopped && s.queues.events.queue == [LATE] && s.rx.parsed == []
  {
    StrandingCloses();
    StrandingDrains();
    StrandingStops();
    hide *;
    RunAppend(QueueFirst, LAUNCH, ARRIVAL + CLOSING + RX_EXIT + TX_EXIT + POLLS, ENDING);
    RunAppend(QueueFirst, LAUNCH, ARRIVAL + CLOSING + RX_EXIT + TX_EXIT, POLLS);
    RunAppend(QueueFirst, LAUNCH, ARRIVAL + CLOSING + RX_EXIT, TX_EXIT);
    RunAppend(QueueFirst, LAUNCH, ARRIVAL + CLOSING, RX_EXIT);
    RunAppend(QueueFirst, LAUNCH, ARRIVAL, CLOSING);
  }

  // ----- the stop comes to an end -----

  /** Dispatcher steps still to go once the receiver is closed. */
  function DispatcherRank(order: Order, s: State): nat {
    var u := |s.queues.events.queue|;
    match s.dispatcher.pc
    case FirstTest => 5 * u + 3
    case SecondTest => if order == QueueFirst then 2 else 5 * u + 2
    case Receive => if u == 0 then 4 else 5 * u + 1
    case Post(_) => 5 * u + 4
    case SetEnded => 1
    case DispatcherGone => 0
  }

  /** Rx steps still to go once the dispatcher is gone. */
  function RxRank(s: State): nat {
    var q := |s.queues.plat.queue|;
    match s.rx.pc
    case RxGone => 0
    case RxSet => 1
    case RxQueue => 8 * q + 2
    case RxFlag => 8 * q + 3
    case RxParse(_) => 8 * q + 4
    case RxRead(_) => if q == 0 then 6 else 8 * q + 5
    case RxState => if q == 0 then 5 else 8 * q + 1
    case RxWait => if q == 0 then 4 else 8 * q
  }

  const STEPS_PER_FRAME: nat := 5

  /** Tx steps still to go once the dispatcher is gone if nobody sends any more; a frame in the queue costs five. */
  function TxRank(s: State): nat {
    var q := |s.queues.frames.queue|;
    match s.tx.pc
    case TxGone => 0
    case TxSet => 1
    case TxQueue => 5 * q + 2
    case TxFlag => 5 * q + 3
    case TxWrite(_) => 5 * q + 4
    case TxState => if q == 0 then 5 else 5 * q + 1
    case TxWait => if q == 0 then 4 else 5 * q
  }

  /** Steps of the stop caller still to go once all three flags are up. */
  function CallerRank(s: State): nat {
    match s.caller.pc
    case Polling1 => 5
    case Polling2 => 4
    case Polling3 => 3
    case StoppingCore => 2
    case Marking => 1
    case _ => 0
  }

  /** The stop caller is past disabling the receiver. */
  predicate Waiting(s: State) {
    Stage(s.caller.pc) >= 4
  }

  predicate AllFlags(s: State) {
    s.rx.flag1 && s.tx.flag2 && s.dispatcher.ended
  }

  function Less(rank: nat, spent: nat): nat {
    if rank > spent then rank - spent else 0
  }

  /** A dispatcher step brings its end nearer; no other step delays it. */
  lemma DispatcherProgress(order: Order, s: State, a: Action)
    requires Safe(order, s) && Waiting(s)
    ensures Waiting(Do(order, s, a))
    ensures DispatcherRank(order, Do(order, s, a)) <= Less(DispatcherRank(order, s), if a.Dispatcher? then 1 else 0)
  {
    hide AllConserved;
  }

  lemma RxProgress(order: Order, s: State, a: Action)
    requires Safe(order, s) && Waiting(s) && s.dispatcher.ended && (s.caller.running || s.rx.pc.RxGone?)
    ensures var r := Do(order, s, a);
            && r.dispatcher.ended && (r.caller.running || r.rx.pc.RxGone?)
            && RxRank(r) <= Less(RxRank(s), if a.Rx? then 1 else 0)
  {
    hide AllConserved;
  }

  /** Until it is gone, each of its steps brings the tx task one step nearer to its end, and a send sets it back by
      at most five. */
  lemma TxProgress(order: Order, s: State, a: Action)
    requires Safe(order, s) && Waiting(s) && s.dispatcher.ended && (s.caller.running || s.tx.pc.TxGone?)
    ensures var r := Do(order, s, a);
            && r.dispatcher.ended && (r.caller.running || r.tx.pc.TxGone?)
            && (if TxRank(s) == 0 then TxRank(r) == 0
                else TxRank(r) + (if a.Tx? then 1 else 0) <= TxRank(s) + if a.Send? then STEPS_PER_FRAME else 0)
  {
    hide AllConserved;
  }

  lemma CallerProgress(order: Order, s: State, a: Action)
    requires Safe(order, s) && Waiting(s) && AllFlags(s)
    ensures var r := Do(order, s, a);
            && AllFlags(r)
            && CallerRank(r) <= Less(CallerRank(s), if a.Caller? then 1 else 0)
  {
    hide AllConserved;
  }

  function DispatcherSteps(actions: seq<Action>): nat {
    if actions == [] then 0 else (if actions[0].Dispatcher? then 1 else 0) + DispatcherSteps(actions[1..])
  }

  function RxSteps(actions: seq<Action>): nat {
    if actions == [] then 0 else (if actions[0].Rx? then 1 else 0) + RxSteps(actions[1..])
  }

  function TxSteps(actions: seq<Action>): nat {
    if actions == [] then 0 else (if actions[0].Tx? then 1 else 0) + TxSteps(actions[1..])
  }

  function CallerSteps(actions: seq<Action>): nat {
    if actions == [] then 0 else (if actions[0].Caller? then 1 else 0) + CallerSteps(actions[1..])
  }

  function Sends(actions: seq<Action>): nat {
    if actions == [] then 0 else (if actions[0].Send? then 1 else 0) + Sends(actions[1..])
  }

  lemma {:induction false} DispatcherEnds(order: Order, s: State, actions: seq<Action>)
    requires Safe(order, s) && Waiting(s)
    ensures var r := Run(order, s, actions);
            Waiting(r) && DispatcherRank(order, r) <= Less(DispatcherRank(order, s), DispatcherSteps(actions))
    decreases |actions|
  {
    hide Do, Safe, Waiting, DispatcherRank;
    if actions != [] {
      OneActionIsSafe(order, s, actions[0]);
      DispatcherProgress(order, s, actions[0]);
      DispatcherEnds(order, Do(order, s, actions[0]), actions[1..]);
    }
  }

  lemma OneActionIsSafe(order: Order, s: State, a: Action)
    requires Safe(order, s)
    ensures Safe(order, Do(order, s, a))
  {
    RunIsSafe(order, s, [a]);
    hide Do, Safe;
    assert [a][1..] == [];
    assert Run(order, Do(order, s, a), []) == Do(order, s, a);
  }

  /** The dispatcher is gone, and no task finds the HAL stopped before it has finished. */
  predicate Draining(s: State) {
    && Waiting(s) && s.dispatcher.ended
    && (s.caller.running || (s.rx.pc.RxGone? && s.tx.pc.TxGone?))
  }

  lemma DrainingStays(order: Order, s: State, a: Action)
    requires Safe(order, s) && Draining(s)
    ensures Draining(Do(order, s, a))
  {
    hide AllConserved;
  }

  lemma {:induction false} TasksEnd(order: Order, s: State, actions: seq<Action>)
    requires Safe(order, s) && Draining(s)
    ensures var r := Run(order, s, actions);
            && Draining(r)
            && RxRank(r) <= Less(RxRank(s), RxSteps(actions))
            && (TxRank(s) == 0 ==> TxRank(r) == 0)
            && (TxRank(r) == 0 || TxRank(r) + TxSteps(actions) <= TxRank(s) + STEPS_PER_FRAME * Sends(actions))
    decreases |actions|
  {
    if actions != [] {
      var a := actions[0];
      DrainingStays(order, s, a);
      OneActionIsSafe(order, s, a);
      assert Waiting(s) && s.dispatcher.ended && (s.caller.running || (s.rx.pc.RxGone? && s.tx.pc.TxGone?));
      hide Do, Safe, RxRank, TxRank, Waiting;
      RxProgress(order, s, a);
      TxProgress(order, s, a);
      TasksEnd(order, Do(order, s, a), actions[1..]);
    }
  }

  lemma {:induction false} CallerEnds(order: Order, s: State, actions: seq<Action>)
    requires Safe(order, s) && Waiting(s) && AllFlags(s)
    ensures var r := Run(order, s, actions);
            && Waiting(r) && CallerRank(r) <= Less(CallerRank(s), CallerSteps(actions))
    decreases |actions|
  {
    hide Do, Safe, Waiting, CallerRank, AllFlags, DispatcherRank;
    if actions != [] {
      OneActionIsSafe(order, s, actions[0]);
      DispatcherProgress(order, s, actions[0]);
      CallerProgress(order, s, actions[0]);
      CallerEnds(order, Do(order, s, actions[0]), actions[1..]);
    }
  }

  const DISPATCHER_BOUND: nat := 5 * UART_QUEUE_LEN + 4
  const RX_BOUND: nat := 8 * PLATFORM_QUEUE_LEN + 5
  const TX_BOUND: nat := STEPS_PER_FRAME * TX_QUEUE_LEN + 4
  const CALLER_BOUND: nat := 5

  lemma RanksAreBounded(order: Order, s: State)
    requires Safe(order, s)
    ensures DispatcherRank(order, s) <= DISPATCHER_BOUND && RxRank(s) <= RX_BOUND && TxRank(s) <= TX_BOUND
    ensures Waiting(s) && DispatcherRank(order, s) == 0 ==> Draining(s)
    ensures Draining(s) && RxRank(s) == 0 && TxRank(s) == 0 ==> AllFlags(s)
    ensures Waiting(s) && CallerRank(s) == 0 ==> s.caller.pc.Stopped?
    ensures CallerRank(s) <= CALLER_BOUND
  {
  }

  /** Once the receiver is closed the stop comes to an end, whatever the interleaving: it is enough that the
      dispatcher gets its steps, then the rx and the tx task theirs, then the caller its. Any number of frames may
      be sent meanwhile, as long as the tx task gets five more steps for each: only a sender that keeps pace with it
      can hold the stop up. */
  lemma StopTerminates(order: Order, before: seq<Action>, first: seq<Action>, second: seq<Action>, third: seq<Action>)
    requires Waiting(Run(order, LAUNCH, before))
    requires DispatcherSteps(first) >= DISPATCHER_BOUND
    requires RxSteps(second) >= RX_BOUND && TxSteps(second) >= TX_BOUND + STEPS_PER_FRAME * Sends(second)
    requires CallerSteps(third) >= CALLER_BOUND
    ensures Run(order, LAUNCH, before + first + second + third).caller.pc.Stopped?
  {
    hide Run, Do, Safe, Waiting, Draining, AllFlags, DispatcherRank, RxRank, TxRank, CallerRank;
    hide DispatcherSteps, RxSteps, TxSteps, CallerSteps, Sends;
    FollowingBegins(order);
    RunAppend(order, LAUNCH, before + first + second, third);
    RunAppend(order, LAUNCH, before + first, second);
    RunAppend(order, LAUNCH, before, first);
    var s0 := Run(order, LAUNCH, before);
    RunIsSafe(order, LAUNCH, before);
    RanksAreBounded(order, s0);
    DispatcherEnds(order, s0, first);
    var s1 := Run(order, s0, first);
    RunIsSafe(order, s0, first);
    RanksAreBounded(order, s1);
    TasksEnd(order, s1, second);
    var s2 := Run(order, s1, second);
    RunIsSafe(order, s1, second);
    RanksAreBounded(order, s2);
    DrainingWaits(s2);
    CallerEnds(order, s2, third);
    RunIsSafe(order, s2, third);
    RanksAreBounded(order, Run(order, s2, third));
  }

  lemma DrainingWaits(s: State)
    requires Draining(s)
    ensures Waiting(s)
  {
  }

  // ----- a sender that keeps pace can hold the stop up for ever -----

  /** Only the tx task is left, and it finds one frame. */
  predicate HeldUp(s: State, frame: nat) {
    && s.tx.pc.TxWait? && !s.tx.flag2 && s.queues.frames.queue == [frame]
    && s.dispatcher.ended && s.caller.running && (s.caller.pc.Polling1? || s.caller.pc.Polling2?)
  }

  lemma StopCanBeHeldUp(order: Order, frame: nat)
    ensures HeldUp(Run(order, Run(order, Run(order, LAUNCH, [Caller(true), Caller(true), Caller(true), Caller(true)]),
                                  [Dispatcher, Dispatcher, Dispatcher, Send(frame)]),
                       [Tx, Dispatcher, Dispatcher, Dispatcher]), frame)
  {
    hide Run;
    var c := StopCaller(Polling1, true, false, true);
    RunFour(order, LAUNCH, Caller(true), Caller(true), Caller(true), Caller(true));
    var s := LAUNCH.(caller := c);
    assert Run(order, LAUNCH, [Caller(true), Caller(true), Caller(true), Caller(true)]) == s;
    RunFour(order, s, Dispatcher, Dispatcher, Dispatcher, Send(frame));
    var r := State(DispatcherTask(DispatcherGone, true), LAUNCH.rx, LAUNCH.tx, c,
                   EMPTY.(frames := Channel([frame], [frame], [], 1)));
    assert Run(order, s, [Dispatcher, Dispatcher, Dispatcher, Send(frame)]) == r;
    RunFour(order, r, Tx, Dispatcher, Dispatcher, Dispatcher);
  }

  /** The frame is written, the next one sent, and only then does the task look whether it may leave. */
  function Round(frame: nat): seq<Action> {
    [Tx, Tx, Send(frame), Tx] + [Tx, Tx, Caller(true), Caller(true)]
  }

  function Rounds(frame: nat, n: nat): seq<Action> {
    if n == 0 then [] else Round(frame) + Rounds(frame, n - 1)
  }

  lemma HalfRound(order: Order, s: State, frame: nat)
    requires HeldUp(s, frame)
    ensures var r := Run(order, s, [Tx, Tx, Send(frame), Tx]);
            && r.tx.pc.TxQueue? && !r.tx.flag2 && r.queues.frames.queue == [frame]
            && r.dispatcher.ended && r.caller == s.caller
  {
    RunFour(order, s, Tx, Tx, Send(frame), Tx);
    hide Run;
    var s1 := Do(order, s, Tx);
    assert s1.tx.pc.TxWrite? && s1.queues.frames.queue == [] && s1.caller == s.caller;
    var s2 := Do(order, s1, Tx);
    assert s2.tx.pc.TxFlag? && s2.queues == s1.queues;
  }

  lemma RoundStaysHeldUp(order: Order, s: State, frame: nat)
    requires HeldUp(s, frame)
    ensures HeldUp(Run(order, s, Round(frame)), frame)
  {
    HalfRound(order, s, frame);
    var r := Run(order, s, [Tx, Tx, Send(frame), Tx]);
    RunAppend(order, s, [Tx, Tx, Send(frame), Tx], [Tx, Tx, Caller(true), Caller(true)]);
    RunFour(order, r, Tx, Tx, Caller(true), Caller(true));
    hide Run;
    var s2 := Do(order, Do(order, r, Tx), Tx);
    assert s2.tx.pc.TxWait? && s2.queues.frames.queue == [frame] && s2.caller == r.caller;
  }

  lemma {:induction false} StepsAdd(a: seq<Action>, b: seq<Action>)
    ensures TxSteps(a + b) == TxSteps(a) + TxSteps(b) && CallerSteps(a + b) == CallerSteps(a) + CallerSteps(b)
    ensures Sends(a + b) == Sends(a) + Sends(b)
    decreases |a|
  {
    if a == [] {
      assert a + b == b;
    } else {
      assert (a + b)[0] == a[0] && (a + b)[1..] == a[1..] + b;
      StepsAdd(a[1..], b);
    }
  }

  lemma RoundSteps(frame: nat)
    ensures TxSteps(Round(frame)) == STEPS_PER_FRAME && CallerSteps(Round(frame)) == 2 && Sends(Round(frame)) == 1
  {
    FourSteps(Tx, Tx, Send(frame), Tx);
    FourSteps(Tx, Tx, Caller(true), Caller(true));
    StepsAdd([Tx, Tx, Send(frame), Tx], [Tx, Tx, Caller(true), Caller(true)]);
  }

  lemma FourSteps(a: Action, b: Action, c: Action, d: Action)
    ensures TxSteps([a, b, c, d]) == TxSteps([a]) + TxSteps([b]) + TxSteps([c]) + TxSteps([d])
    ensures CallerSteps([a, b, c, d]) == CallerSteps([a]) + CallerSteps([b]) + CallerSteps([c]) + CallerSteps([d])
    ensures Sends([a, b, c, d]) == Sends([a]) + Sends([b]) + Sends([c]) + Sends([d])
  {
    hide TxSteps, CallerSteps, Sends;
    assert [a, b] == [a] + [b] && [c, d] == [c] + [d] && [a, b, c, d] == [a, b] + [c, d];
    StepsAdd([a], [b]);
    StepsAdd([c], [d]);
    StepsAdd([a, b], [c, d]);
  }

  /** Keeping pace is enough: with one send for every five steps of the tx task, rounds can repeat without end and
      the stop is never through. So StopTerminates needs its five steps for each frame, and more. */
  lemma {:induction false} BusySenderHoldsUpStop(order: Order, s: State, frame: nat, n: nat)
    requires HeldUp(s, frame)
    ensures var rounds := Rounds(frame, n);
            && HeldUp(Run(order, s, rounds), frame) && CallerSteps(rounds) == 2 * n
            && Sends(rounds) == n && TxSteps(rounds) == STEPS_PER_FRAME * Sends(rounds)
    decreases n
  {
    if n > 0 {
      RoundStaysHeldUp(order, s, frame);
      RunAppend(order, s, Round(frame), Rounds(frame, n - 1));
      RoundSteps(frame);
      StepsAdd(Round(frame), Rounds(frame, n - 1));
      hide Run, HeldUp, Round, TxSteps, CallerSteps, Sends;
      BusySenderHoldsUpStop(order, Run(order, s, Round(frame)), frame, n - 1);
    }
  }
}
