/** The WebSocket client with its separate transmit lock: the client task and any number of sending threads,
    interleaved between any two uses of the two recursive locks. */
module WsThreads {
  import opened WsSend

  datatype Config = Config(autoReconnect: bool, closeReconnect: bool)

  /** Where the task goes on after receiving: to the end of its switch or to the end of its poll. */
  datatype Return = ToSwitch | ToPoll

  /** A frame the task sends itself. */
  datatype Errand = Ping | Pong(back: Return) | CloseFrame

  datatype TaskPc =
    | Off | Top | WantSwitch | Switch | Handshaken | PongCheck | EndSwitch | AfterSwitch
    | Receiving(back: Return) | Received(back: Return) | Aborting(back: Return) | Relock
    | WantTx(errand: Errand) | HasTx(errand: Errand) | Both(errand: Errand) | WantBack(errand: Errand)
    | WantError | WantRead | Leave | Lingering | WantClosed | ReportClosed | Finishing

  datatype SenderPc = Outside | WantSend | Sending | WantAbort | SenderAborting | SenderLeaving

  datatype Who = TheTask | Sender(id: nat)

  /** A recursive lock. */
  datatype Lock = Free | Held(owner: Who, times: nat)

  /** Terminal stands for DISCONNECTED and CLOSED; live says whether a connection existed when it was sent. */
  datatype ClientEvent = ConnectedEvent | Terminal(live: bool) | Finished

  datatype ClientState = ClientState(state: WsState, run: bool, closeSent: bool, history: seq<ClientEvent>)

  datatype State = State(task: TaskPc, senders: map<nat, SenderPc>, lock: Lock, tx: Lock, client: ClientState)

  /** What the outside world answers to a step, where it matters. */
  datatype Answer = Quiet | Good | Bad | Expired | PingArrives | CloseArrives

  /** Start, RequestStop and MarkClosing are API calls; SendStart begins a send; the others are thread steps. */
  datatype Action =
    | Start | RequestStop | MarkClosing | SendStart(id: nat) | TaskStep(a: Answer) | SenderStep(id: nat, a: Answer)

  const LAUNCH := State(Off, map[], Free, Free, ClientState(Unknown, false, false, []))

  // ----- locks -----

  predicate Can(l: Lock, w: Who) {
    l.Free? || l.owner == w
  }

  function Acquire(l: Lock, w: Who): Lock {
    if l.Free? then Held(w, 1) else if l.owner == w then Held(w, l.times + 1) else l
  }

  function Release(l: Lock, w: Who): Lock {
    if l.Held? && l.owner == w then if l.times > 1 then Held(w, l.times - 1) else Free else l
  }

  // ----- the client's own state -----

  predicate Live(state: WsState) {
    state.Connected? || state.Closing?
  }

  function Report(c: ClientState, e: ClientEvent): ClientState {
    c.(history := c.history + [e])
  }

  /** esp_websocket_client_abort_connection, under the lock. */
  function Abort(cfg: Config, c: ClientState): ClientState {
    var after := AfterAbort(c.state, cfg.autoReconnect);
    if after == c.state then c
    else ClientState(after, c.run && cfg.autoReconnect, c.closeSent, c.history + [Terminal(Live(c.state))])
  }

  // ----- the task -----

  predicate WantsLock(pc: TaskPc) {
    pc.WantSwitch? || pc.Relock? || pc.HasTx? || pc.WantBack? || pc.WantError? || pc.WantRead? || pc.WantClosed?
  }

  /** Where a task goes once it has the lock it waits for. */
  function WithLock(pc: TaskPc): TaskPc {
    match pc
    case WantSwitch => Switch
    case Relock => EndSwitch
    case HasTx(e) => Both(e)
    case WantBack(e) => if e.Pong? then Aborting(e.back) else EndSwitch
    case WantError => Aborting(ToPoll)
    case WantRead => Receiving(ToPoll)
    case WantClosed => ReportClosed
    case _ => pc
  }

  /** The switch over the client's state (source lines 1146-1319). */
  function SwitchNext(c: ClientState, a: Answer): TaskPc {
    match c.state
    case Init => if a.Good? then Handshaken else if a.Bad? then Aborting(ToSwitch) else EndSwitch
    case Connected => if c.closeSent then EndSwitch else if a.Expired? then WantTx(Ping) else PongCheck
    case Closing => if c.closeSent then EndSwitch else WantTx(CloseFrame)
    case _ => EndSwitch
  }

  function TaskNext(cfg: Config, s: State, a: Answer): TaskPc {
    var (pc, c) := (s.task, s.client);
    if WantsLock(pc) then if Can(s.lock, TheTask) then WithLock(pc) else pc
    else
      match pc
      case Top => if c.run then WantSwitch else Finishing
      case Switch => SwitchNext(c, a)
      case Handshaken => if a.Good? then Receiving(ToSwitch) else EndSwitch
      case PongCheck => if a.Expired? then Aborting(ToSwitch) else EndSwitch
      case Receiving(back) =>
        if !Live(c.state) || a.Bad? then Aborting(back)
        else if a.PingArrives? then WantTx(Pong(back)) else Received(back)
      case Received(back) => if back.ToSwitch? then Relock else Leave
      case Aborting(back) => if back.ToSwitch? then EndSwitch else Leave
      case WantTx(e) => if a.Expired? then WantBack(e) else if Can(s.tx, TheTask) then HasTx(e) else pc
      case Both(e) =>
        if e.Pong? then Received(e.back) else if e.Ping? && c.state.Connected? then PongCheck else EndSwitch
      case EndSwitch => AfterSwitch
      case AfterSwitch =>
        if c.state.Connected? then if a.Bad? then WantError else if a.Good? then WantRead else Top
        else if c.state.Closing? && c.closeSent then Lingering else Top
      case Lingering => if cfg.closeReconnect then WantClosed else Finishing
      case ReportClosed => Leave
      case Leave => Top
      case Finishing => Off
      case _ => pc
  }

  predicate GivesLock(pc: TaskPc, next: TaskPc) {
    pc.EndSwitch? || pc.Leave? || (pc.Received? && pc.back.ToSwitch?) || (next.WantTx? && !pc.WantTx?)
  }

  function TaskLock(cfg: Config, s: State, a: Answer): Lock {
    if WantsLock(s.task) then Acquire(s.lock, TheTask)
    else if GivesLock(s.task, TaskNext(cfg, s, a)) then Release(s.lock, TheTask)
    else s.lock
  }

  function TaskTx(s: State, a: Answer): Lock {
    if s.task.WantTx? && !a.Expired? then Acquire(s.tx, TheTask)
    else if s.task.Both? then Release(s.tx, TheTask)
    else s.tx
  }

  function TaskClient(cfg: Config, s: State, a: Answer): ClientState {
    var (pc, c) := (s.task, s.client);
    match pc
    case Switch =>
      if c.state.Init? && a.Good? then Report(c.(state := Connected), ConnectedEvent)
      else if c.state.WaitTimeout? && a.Expired? then c.(state := Init)
      else c
    case Receiving(_) => if Live(c.state) && a.CloseArrives? then c.(state := Closing) else c
    case Aborting(_) => Abort(cfg, c)
    case Both(e) => if e.CloseFrame? && c.state.Closing? then c.(closeSent := true) else c
    case Lingering =>
      if cfg.closeReconnect then c else Report(c.(state := Unknown, run := false), Terminal(Live(c.state)))
    case ReportClosed => Report(c.(state := WaitTimeout, closeSent := false), Terminal(Live(c.state)))
    case Finishing => Report(c.(state := Unknown), Finished)
    case _ => c
  }

  // ----- senders -----

  function At(s: State, id: nat): SenderPc {
    if id in s.senders then s.senders[id] else Outside
  }

  function SenderNext(s: State, id: nat, a: Answer): SenderPc {
    match At(s, id)
    case Outside => Outside
    case WantSend => if a.Expired? then Outside else if Can(s.tx, Sender(id)) then Sending else WantSend
    case Sending => if a.Good? then Outside else if a.Bad? then WantAbort else Sending
    case WantAbort => if Can(s.lock, Sender(id)) then SenderAborting else WantAbort
    case SenderAborting => SenderLeaving
    case SenderLeaving => Outside
  }

  function SenderLock(s: State, id: nat): Lock {
    if At(s, id).WantAbort? then Acquire(s.lock, Sender(id))
    else if At(s, id).SenderLeaving? then Release(s.lock, Sender(id))
    else s.lock
  }

  function SenderTx(s: State, id: nat, a: Answer): Lock {
    if At(s, id).WantSend? && !a.Expired? then Acquire(s.tx, Sender(id))
    else if At(s, id).Sending? && (a.Good? || a.Bad?) then Release(s.tx, Sender(id))
    else s.tx
  }

  function SenderClient(cfg: Config, s: State, id: nat): ClientState {
    if At(s, id).SenderAborting? then Abort(cfg, s.client) else s.client
  }

  function Do(cfg: Config, s: State, action: Action): State {
    match action
    case Start => if s.task.Off? then s.(task := Top, client := ClientState(Init, true, false, s.client.history)) else s
    case RequestStop => s.(client := s.client.(run := false))
    case MarkClosing => s.(client := s.client.(closeSent := true))
    case SendStart(id) =>
      if At(s, id).Outside? && s.client.state.Connected? then s.(senders := s.senders[id := WantSend]) else s
    case TaskStep(a) =>
      State(TaskNext(cfg, s, a), s.senders, TaskLock(cfg, s, a), TaskTx(s, a), TaskClient(cfg, s, a))
    case SenderStep(id, a) =>
      State(s.task, s.senders[id := SenderNext(s, id, a)], SenderLock(s, id), SenderTx(s, id, a),
            SenderClient(cfg, s, id))
  }

  function Run(cfg: Config, s: State, actions: seq<Action>): State
    decreases |actions|
  {
    if actions == [] then s else Run(cfg, Do(cfg, s, actions[0]), actions[1..])
  }

  // ----- who holds what -----

  predicate TaskHoldsLock(pc: TaskPc) {
    || pc.Switch? || pc.Handshaken? || pc.PongCheck? || pc.EndSwitch? || pc.Receiving? || pc.Received?
    || pc.Aborting? || pc.Both? || pc.ReportClosed? || pc.Leave?
  }

  predicate TaskHoldsTx(pc: TaskPc) {
    pc.HasTx? || pc.Both?
  }

  predicate SenderHoldsLock(pc: SenderPc) {
    pc.SenderAborting? || pc.SenderLeaving?
  }

  /** Each lock is held by exactly the thread whose position says so, and once. */
  ghost predicate LockSafe(task: TaskPc, senders: map<nat, SenderPc>, l: Lock) {
    && (l == Held(TheTask, 1) <==> TaskHoldsLock(task))
    && (forall id :: l == Held(Sender(id), 1) <==> id in senders && SenderHoldsLock(senders[id]))
    && (l.Held? ==> l.times == 1)
  }

  ghost predicate TxSafe(task: TaskPc, senders: map<nat, SenderPc>, l: Lock) {
    && (l == Held(TheTask, 1) <==> TaskHoldsTx(task))
    && (forall id :: l == Held(Sender(id), 1) <==> id in senders && senders[id].Sending?)
    && (l.Held? ==> l.times == 1)
  }

  ghost predicate LocksSafe(s: State) {
    LockSafe(s.task, s.senders, s.lock) && TxSafe(s.task, s.senders, s.tx)
  }

  lemma TaskKeepsLock(cfg: Config, s: State, a: Answer)
    requires LockSafe(s.task, s.senders, s.lock)
    ensures LockSafe(TaskNext(cfg, s, a), s.senders, TaskLock(cfg, s, a))
  {
  }

  lemma SenderKeepsLock(s: State, id: nat, a: Answer)
    requires LockSafe(s.task, s.senders, s.lock)
    ensures LockSafe(s.task, s.senders[id := SenderNext(s, id, a)], SenderLock(s, id))
  {
    assert s.lock == Held(Sender(id), 1) <==> id in s.senders && SenderHoldsLock(s.senders[id]);
  }

  lemma SenderKeepsTx(s: State, id: nat, a: Answer)
    requires TxSafe(s.task, s.senders, s.tx)
    ensures TxSafe(s.task, s.senders[id := SenderNext(s, id, a)], SenderTx(s, id, a))
  {
    assert s.tx == Held(Sender(id), 1) <==> id in s.senders && s.senders[id].Sending?;
  }

  lemma DoKeepsLocks(cfg: Config, s: State, action: Action)
    requires LocksSafe(s)
    ensures LocksSafe(Do(cfg, s, action))
  {
    match action
    case TaskStep(a) =>
      hide LockSafe, TxSafe, TaskNext, TaskLock, TaskTx, TaskClient;
      TaskKeepsLock(cfg, s, a);
    case SenderStep(id, a) =>
      hide LockSafe, TxSafe, SenderNext, SenderLock, SenderTx, SenderClient;
      SenderKeepsLock(s, id, a);
      SenderKeepsTx(s, id, a);
    case _ =>
  }

  lemma {:induction false} RunKeepsLocks(cfg: Config, s: State, actions: seq<Action>)
    requires LocksSafe(s)
    ensures LocksSafe(Run(cfg, s, actions))
    decreases |actions|
  {
    hide Do, LocksSafe;
    if actions != [] {
      DoKeepsLocks(cfg, s, actions[0]);
      RunKeepsLocks(cfg, Do(cfg, s, actions[0]), actions[1..]);
    }
  }

  lemma {:induction false} RunAppend(cfg: Config, s: State, first: seq<Action>, second: seq<Action>)
    ensures Run(cfg, s, first + second) == Run(cfg, Run(cfg, s, first), second)
    decreases |first|
  {
    hide Do;
    if first == [] {
      assert first + second == second;
    } else {
      assert (first + second)[0] == first[0] && (first + second)[1..] == first[1..] + second;
      RunAppend(cfg, Do(cfg, s, first[0]), first[1..], second);
    }
  }

  predicate WaitsForLock(s: State, w: Who) {
    if w.TheTask? then WantsLock(s.task) else At(s, w.id).WantAbort?
  }

  predicate WaitsForTx(s: State, w: Who) {
    if w.TheTask? then s.task.WantTx? else At(s, w.id).WantSend?
  }

  /** w cannot step except by giving up. */
  predicate Blocked(s: State, w: Who) {
    (WaitsForLock(s, w) && !Can(s.lock, w)) || (WaitsForTx(s, w) && !Can(s.tx, w))
  }

  predicate Holds(l: Lock, w: Who) {
    l.Held? && l.owner == w
  }

  /** Nobody waits for the transmit lock while holding the client lock, and every chain of waiting threads ends
      after at most two with one that can step. */
  ghost predicate Disciplined(s: State) {
    && (forall w :: WaitsForTx(s, w) ==> !Holds(s.lock, w))
    && (s.lock.Held? ==> !Blocked(s, s.lock.owner))
    && (s.tx.Held? ==> !WaitsForTx(s, s.tx.owner) && (Blocked(s, s.tx.owner) ==> s.lock.Held?))
  }

  lemma SafeIsDisciplined(s: State)
    requires LocksSafe(s)
    ensures Disciplined(s)
  {
    forall w | WaitsForTx(s, w) ensures !Holds(s.lock, w) {
      if w.Sender? {
        assert s.lock == Held(Sender(w.id), 1) <==> w.id in s.senders && SenderHoldsLock(s.senders[w.id]);
      }
    }
    if s.lock.Held? && s.lock.owner.Sender? {
      var id := s.lock.owner.id;
      assert s.lock == Held(Sender(id), 1);
    }
    if s.tx.Held? && s.tx.owner.Sender? {
      var id := s.tx.owner.id;
      assert s.tx == Held(Sender(id), 1);
    }
  }

  lemma LaunchIsSafe()
    ensures LocksSafe(LAUNCH) && HistorySafe(LAUNCH.task, LAUNCH.client)
  {
  }

  /** In every interleaving of the task, any number of senders and the API calls, no wait cycle arises. */
  lemma NoDeadlock(cfg: Config, actions: seq<Action>)
    ensures Disciplined(Run(cfg, LAUNCH, actions))
  {
    hide *;
    LaunchIsSafe();
    RunKeepsLocks(cfg, LAUNCH, actions);
    SafeIsDisciplined(Run(cfg, LAUNCH, actions));
  }

  /** The task has just come back from a PING, PONG or CLOSE errand, or has not left on one. */
  predicate BackFromErrand(pc: TaskPc) {
    pc.PongCheck? || pc.Received? || pc.EndSwitch? || pc.Aborting? || pc.Leave?
  }

  /** Whichever way the errand went (sent, timed out, connection gone), the task then holds the client lock once
      and not the transmit lock. */
  lemma ErrandsEndWithLockHeldOnce(cfg: Config, actions: seq<Action>)
    ensures var s := Run(cfg, LAUNCH, actions);
            BackFromErrand(s.task) ==> s.lock == Held(TheTask, 1) && !Holds(s.tx, TheTask)
  {
    LaunchIsSafe();
    RunKeepsLocks(cfg, LAUNCH, actions);
    hide Run;
  }

  predicate OnErrand(pc: TaskPc) {
    pc.WantTx? || pc.HasTx? || pc.Both? || pc.WantBack?
  }

  /** Steps of an errand still to go. */
  function ErrandRank(pc: TaskPc): nat {
    if pc.WantTx? then 3 else if pc.HasTx? then 2 else if pc.Both? || pc.WantBack? then 1 else 0
  }

  /** A step in which the task is not held up at a lock: the lock is there, or the wait for it runs out. */
  predicate Moves(s: State, action: Action) {
    action.TaskStep? && (!Blocked(s, TheTask) || (s.task.WantTx? && action.a.Expired?))
  }

  /** On an errand every step that is not held up brings its end nearer, and no other thread sets it back. */
  lemma ErrandsAdvance(cfg: Config, s: State, action: Action)
    requires OnErrand(s.task)
    ensures var n := Do(cfg, s, action).task;
            && (OnErrand(n) || BackFromErrand(n))
            && if Moves(s, action) then ErrandRank(n) < ErrandRank(s.task) else n == s.task
  {
    hide TaskClient;
  }

  function Moved(cfg: Config, s: State, actions: seq<Action>): nat
    decreases |actions|
  {
    if actions == [] then 0
    else (if Moves(s, actions[0]) then 1 else 0) + Moved(cfg, Do(cfg, s, actions[0]), actions[1..])
  }

  /** Every PING, PONG and CLOSE comes back, in every interleaving, after at most three such steps. */
  lemma {:induction false} ErrandsComeBack(cfg: Config, s: State, actions: seq<Action>)
    requires OnErrand(s.task) && Moved(cfg, s, actions) >= ErrandRank(s.task)
    ensures ErrandRank(s.task) <= 3
    ensures exists k :: 0 < k <= |actions| && BackFromErrand(Run(cfg, s, actions[..k]).task)
    decreases |actions|
  {
    hide Do, Moves, BackFromErrand;
    assert actions != [];
    var z := Do(cfg, s, actions[0]);
    ErrandsAdvance(cfg, s, actions[0]);
    if OnErrand(z.task) {
      ErrandsComeBack(cfg, z, actions[1..]);
      var k :| 0 < k <= |actions[1..]| && BackFromErrand(Run(cfg, z, actions[1..][..k]).task);
      assert actions[..k + 1][1..] == actions[1..][..k];
      assert BackFromErrand(Run(cfg, s, actions[..k + 1]).task);
    } else {
      assert actions[..1][1..] == [];
      assert Run(cfg, z, []) == z;
      assert BackFromErrand(Run(cfg, s, actions[..1]).task);
    }
  }

  // ----- events -----

  function LiveNow(h: seq<ClientEvent>): bool {
    h != [] && h[|h| - 1].ConnectedEvent?
  }

  predicate Fits(h: seq<ClientEvent>, e: ClientEvent) {
    match e
    case ConnectedEvent => !LiveNow(h)
    case Terminal(live) => live == LiveNow(h)
    case Finished => true
  }

  /** A connection is announced only after the previous one has ended, and ended at most once. */
  ghost predicate Alternating(h: seq<ClientEvent>) {
    forall i :: 0 <= i < |h| ==> Fits(h[..i], h[i])
  }

  /** The events sent so far are in order, and the last one tells whether there is a connection. */
  ghost predicate Truthful(c: ClientState) {
    Alternating(c.history) && (Live(c.state) <==> LiveNow(c.history))
  }

  predicate Placed(pc: TaskPc, state: WsState) {
    && (pc.Lingering? || pc.WantClosed? || pc.ReportClosed? ==> state.Closing?)
    && (pc.Off? ==> state.Unknown?)
  }

  ghost predicate HistorySafe(pc: TaskPc, c: ClientState) {
    Truthful(c) && Placed(pc, c.state)
  }

  lemma AppendFits(h: seq<ClientEvent>, e: ClientEvent)
    requires Alternating(h) && Fits(h, e)
    ensures Alternating(h + [e]) && (LiveNow(h + [e]) <==> e.ConnectedEvent?)
  {
    forall i | 0 <= i < |h + [e]| ensures Fits((h + [e])[..i], (h + [e])[i]) {
      assert (h + [e])[..i] == h[..i];
      if i == |h| {
        assert h[..i] == h;
      }
    }
  }

  lemma AbortKeepsHistory(cfg: Config, pc: TaskPc, c: ClientState)
    requires HistorySafe(pc, c)
    ensures HistorySafe(pc, Abort(cfg, c)) && Truthful(Abort(cfg, c))
  {
    hide Alternating;
    AppendFits(c.history, Terminal(LiveNow(c.history)));
  }

  lemma TaskStaysTruthful(cfg: Config, s: State, a: Answer)
    requires HistorySafe(s.task, s.client)
    ensures Truthful(TaskClient(cfg, s, a))
  {
    hide Alternating, Fits, LiveNow, Abort;
    var (pc, c) := (s.task, s.client);
    AbortKeepsHistory(cfg, pc, c);
    if pc.Switch? && c.state.Init? {
      ReportIsTruthful(c, Connected, c.run, c.closeSent, ConnectedEvent);
    } else if pc.Lingering? {
      ReportIsTruthful(c, Unknown, false, c.closeSent, Terminal(true));
    } else if pc.ReportClosed? {
      ReportIsTruthful(c, WaitTimeout, c.run, false, Terminal(true));
    } else if pc.Finishing? {
      ReportIsTruthful(c, Unknown, c.run, c.closeSent, Finished);
    }
  }

  /** Changing the state along with sending the event that announces the change. */
  lemma ReportIsTruthful(c: ClientState, state: WsState, run: bool, closeSent: bool, e: ClientEvent)
    requires Truthful(c) && (Live(state) <==> e.ConnectedEvent?)
    requires e.Finished? || (if e.ConnectedEvent? then !Live(c.state) else e.live == Live(c.state))
    ensures Truthful(ClientState(state, run, closeSent, c.history + [e]))
  {
    hide Alternating;
    AppendFits(c.history, e);
  }

  lemma TaskStaysPlaced(cfg: Config, s: State, a: Answer)
    requires Placed(s.task, s.client.state)
    ensures Placed(TaskNext(cfg, s, a), TaskClient(cfg, s, a).state)
  {
    hide Abort;
  }

  lemma TaskKeepsHistory(cfg: Config, s: State, a: Answer)
    requires HistorySafe(s.task, s.client)
    ensures HistorySafe(TaskNext(cfg, s, a), TaskClient(cfg, s, a))
  {
    TaskStaysTruthful(cfg, s, a);
    TaskStaysPlaced(cfg, s, a);
    hide Truthful, Placed, TaskNext, TaskClient;
  }

  lemma DoKeepsHistory(cfg: Config, s: State, action: Action)
    requires HistorySafe(s.task, s.client)
    ensures HistorySafe(Do(cfg, s, action).task, Do(cfg, s, action).client)
  {
    hide Alternating, TaskNext, TaskClient, TaskLock, TaskTx, Abort;
    match action
    case TaskStep(a) => TaskKeepsHistory(cfg, s, a);
    case SenderStep(id, a) => AbortKeepsHistory(cfg, s.task, s.client);
    case _ =>
  }

  lemma {:induction false} RunKeepsHistory(cfg: Config, s: State, actions: seq<Action>)
    requires HistorySafe(s.task, s.client)
    ensures HistorySafe(Run(cfg, s, actions).task, Run(cfg, s, actions).client)
    decreases |actions|
  {
    hide Do, HistorySafe;
    if actions != [] {
      DoKeepsHistory(cfg, s, actions[0]);
      RunKeepsHistory(cfg, Do(cfg, s, actions[0]), actions[1..]);
    }
  }

  /** In every interleaving, a connection gets at most one DISCONNECTED or CLOSED event, and a further one can only
      come while no connection exists. */
  lemma OneTerminalPerConnection(cfg: Config, actions: seq<Action>)
    ensures Alternating(Run(cfg, LAUNCH, actions).client.history)
  {
    LaunchIsSafe();
    RunKeepsHistory(cfg, LAUNCH, actions);
    hide Run, Alternating;
  }

  function Terminals(h: seq<ClientEvent>): nat {
    if h == [] then 0 else Terminals(h[..|h| - 1]) + if h[|h| - 1].Terminal? then 1 else 0
  }

  /** This step aborts while the client is in its Init state, where no connection exists: the task after a failed
      attempt to connect, or a sender whose connection is long gone. */
  predicate AbortsInInit(s: State, action: Action) {
    && s.client.state.Init?
    && ((action.TaskStep? && s.task.Aborting?) || (action.SenderStep? && At(s, action.id).SenderAborting?))
  }

  function InitAborts(cfg: Config, s: State, actions: seq<Action>): nat
    decreases |actions|
  {
    if actions == [] then 0
    else (if AbortsInInit(s, actions[0]) then 1 else 0) + InitAborts(cfg, Do(cfg, s, actions[0]), actions[1..])
  }

  /** What a step adds to the history: nothing, or one event that fits; a terminal event without a connection
      exactly if the step aborts in Init. */
  ghost predicate Adds(before: seq<ClientEvent>, after: seq<ClientEvent>, spurious: bool) {
    || (after == before && !spurious)
    || (|after| == |before| + 1 && after[..|before|] == before && Fits(before, after[|before|])
        && (spurious <==> after[|before|] == Terminal(false)))
  }

  lemma AddsOne(before: seq<ClientEvent>, e: ClientEvent, spurious: bool)
    requires Fits(before, e) && (spurious <==> e == Terminal(false))
    ensures Adds(before, before + [e], spurious)
  {
    assert (before + [e])[..|before|] == before;
  }

  lemma AbortAdds(cfg: Config, c: ClientState)
    requires Truthful(c)
    ensures Adds(c.history, Abort(cfg, c).history, c.state.Init?)
  {
    hide Adds, Alternating, LiveNow;
    AddsNothing(c.history);
    AddsOne(c.history, Terminal(Live(c.state)), !Live(c.state));
  }

  lemma AddsNothing(h: seq<ClientEvent>)
    ensures Adds(h, h, false)
  {
  }

  lemma TaskAdds(cfg: Config, s: State, a: Answer)
    requires HistorySafe(s.task, s.client)
    ensures Adds(s.client.history, TaskClient(cfg, s, a).history, s.task.Aborting? && s.client.state.Init?)
  {
    hide Adds, Alternating, LiveNow, Abort;
    var (pc, c) := (s.task, s.client);
    AbortAdds(cfg, c);
    AddsNothing(c.history);
    AddsOne(c.history, Finished, false);
    if pc.Switch? && c.state.Init? {
      AddsOne(c.history, ConnectedEvent, false);
    } else if pc.Lingering? || pc.ReportClosed? {
      AddsOne(c.history, Terminal(true), false);
    }
  }

  lemma DoAdds(cfg: Config, s: State, action: Action)
    requires HistorySafe(s.task, s.client)
    ensures Adds(s.client.history, Do(cfg, s, action).client.history, AbortsInInit(s, action))
  {
    hide Adds, Truthful, TaskNext, TaskClient, TaskLock, TaskTx, Abort;
    AddsNothing(s.client.history);
    match action
    case TaskStep(a) => TaskAdds(cfg, s, a);
    case SenderStep(id, a) => AbortAdds(cfg, s.client);
    case _ =>
  }

  /** No CONNECTED event comes after number i. */
  ghost predicate NoneConnected(h: seq<ClientEvent>, i: nat) {
    forall k :: i < k < |h| ==> !h[k].ConnectedEvent?
  }

  lemma NoneInPrefix(h: seq<ClientEvent>, full: seq<ClientEvent>, i: nat)
    requires h <= full && NoneConnected(full, i)
    ensures NoneConnected(h, i)
  {
    forall k | i < k < |h| ensures !h[k].ConnectedEvent? {
      assert h[k] == full[k];
    }
  }

  /** What a client sees of the events since the last CONNECTED one: none yet, or first the end of that connection
      and then only terminal events without a connection. */
  ghost predicate Since(h: seq<ClientEvent>, i: nat, spurious: nat) {
    && i < |h| && h[i].ConnectedEvent?
    && NoneConnected(h, i)
    && (i + 1 == |h| ==> spurious == 0)
    && Terminals(h[i + 1..]) == spurious + (if i + 1 < |h| && h[i + 1] == Terminal(true) then 1 else 0)
    && (i + 1 < |h| ==> h[i + 1] == Terminal(true) || h[i + 1] == Finished)
  }

  lemma AddsSince(h: seq<ClientEvent>, i: nat, n: nat, after: seq<ClientEvent>, spurious: bool)
    requires Since(h, i, n) && Adds(h, after, spurious) && NoneConnected(after, i)
    ensures Since(after, i, n + if spurious then 1 else 0)
  {
    if after != h {
      assert after[i + 1..][..|h| - i - 1] == h[i + 1..];
      assert after[i] == after[..|h|][i] && (i + 1 < |h| ==> after[i + 1] == after[..|h|][i + 1]);
      assert h[|h| - 1].ConnectedEvent? <==> |h| == i + 1;
    }
  }

  lemma {:induction false} HistoryGrows(cfg: Config, s: State, actions: seq<Action>)
    requires HistorySafe(s.task, s.client)
    ensures s.client.history <= Run(cfg, s, actions).client.history
    decreases |actions|
  {
    hide Do, HistorySafe;
    if actions != [] {
      DoKeepsHistory(cfg, s, actions[0]);
      DoAdds(cfg, s, actions[0]);
      HistoryGrows(cfg, Do(cfg, s, actions[0]), actions[1..]);
    }
  }

  lemma {:induction false} RunSince(cfg: Config, s: State, actions: seq<Action>, i: nat, n: nat)
    requires HistorySafe(s.task, s.client) && Since(s.client.history, i, n)
    requires NoneConnected(Run(cfg, s, actions).client.history, i)
    ensures Since(Run(cfg, s, actions).client.history, i, n + InitAborts(cfg, s, actions))
    decreases |actions|
  {
    hide Do, HistorySafe, Since, AbortsInInit, Adds, NoneConnected;
    if actions != [] {
      var z := Do(cfg, s, actions[0]);
      DoKeepsHistory(cfg, s, actions[0]);
      DoAdds(cfg, s, actions[0]);
      HistoryGrows(cfg, z, actions[1..]);
      NoneInPrefix(z.client.history, Run(cfg, s, actions).client.history, i);
      AddsSince(s.client.history, i, n, z.client.history, AbortsInInit(s, actions[0]));
      RunSince(cfg, z, actions[1..], i, n + if AbortsInInit(s, actions[0]) then 1 else 0);
    }
  }

  /** Let `before` end with a CONNECTED event, and let none come during `during` (whose next step may bring one).
      The terminal events since are one for the connection, unless it has not ended or the client was stopped, and
      one for every step that aborted in Init. So there is at most one exactly if no step aborts in Init, or a
      single one does and the connection ended by a stop. */
  lemma TerminalsSinceConnected(cfg: Config, before: seq<Action>, during: seq<Action>, i: nat)
    requires var h := Run(cfg, LAUNCH, before).client.history; |h| == i + 1 && h[i].ConnectedEvent?
    requires NoneConnected(Run(cfg, LAUNCH, before + during).client.history, i)
    ensures var h := Run(cfg, LAUNCH, before + during).client.history;
            var n := InitAborts(cfg, Run(cfg, LAUNCH, before), during);
            && |h| > i
            && Terminals(h[i + 1..]) == n + (if |h| > i + 1 && h[i + 1] == Terminal(true) then 1 else 0)
            && (Terminals(h[i + 1..]) <= 1 <==> n == 0 || (n == 1 && h[i + 1..] != [] && h[i + 1].Finished?))
  {
    hide Run, Do, HistorySafe, InitAborts;
    LaunchIsSafe();
    RunKeepsHistory(cfg, LAUNCH, before);
    RunAppend(cfg, LAUNCH, before, during);
    var s := Run(cfg, LAUNCH, before);
    assert s.client.history[i + 1..] == [];
    RunSince(cfg, s, during, i, 0);
  }

  // ----- how many terminal events can come between two connections -----

  lemma RunThree(cfg: Config, s: State, a: Action, b: Action, c: Action)
    ensures Run(cfg, s, [a, b, c]) == Do(cfg, Do(cfg, Do(cfg, s, a), b), c)
  {
    hide Do;
    assert [a, b, c][1..] == [b, c] && [b, c][1..] == [c] && [c][1..] == [];
    assert Run(cfg, s, [a, b, c]) == Run(cfg, Do(cfg, s, a), [b, c]);
    assert Run(cfg, Do(cfg, s, a), [b, c]) == Run(cfg, Do(cfg, Do(cfg, s, a), b), [c]);
    assert Run(cfg, Do(cfg, Do(cfg, s, a), b), [c]) == Run(cfg, Do(cfg, Do(cfg, Do(cfg, s, a), b), c), []);
  }

  /** The task is about to look at the client's state, with nothing else going on. */
  predicate Deciding(s: State, state: WsState, h: seq<ClientEvent>) {
    s.task.Switch? && s.lock == Held(TheTask, 1) && s.client == ClientState(state, true, false, h)
  }

  const RECONNECTING := Config(true, true)

  function Three(a: Answer): seq<Action> {
    [TaskStep(a), TaskStep(Quiet), TaskStep(Quiet)]
  }

  const OPENING: seq<Action> := [Start, TaskStep(Quiet), TaskStep(Quiet)]
  /** The waiting time ends. The send that is refused only evens out the count of steps. */
  const RETRY: seq<Action> := Three(Expired) + [TaskStep(Quiet), TaskStep(Quiet), SendStart(0)]
  const FAILED_ATTEMPT: seq<Action> := Three(Bad) + Three(Quiet)
  const LOST_CONNECTION: seq<Action> := Three(Good) + Three(Bad) + Three(Quiet)

  /** The task stands at pc, the lock is l, and the client is in this state with this history. */
  predicate Waits(s: State, pc: TaskPc, l: Lock, state: WsState, h: seq<ClientEvent>) {
    s.task == pc && s.lock == l && s.client == ClientState(state, true, false, h)
  }

  lemma FromTop(s: State, state: WsState, h: seq<ClientEvent>)
    requires Waits(s, Top, Free, state, h) && !Live(state)
    ensures Deciding(Run(RECONNECTING, s, [TaskStep(Quiet), TaskStep(Quiet), SendStart(0)]), state, h)
  {
    RunThree(RECONNECTING, s, TaskStep(Quiet), TaskStep(Quiet), SendStart(0));
  }

  lemma FromAfterSwitch(s: State, h: seq<ClientEvent>)
    requires Waits(s, AfterSwitch, Free, WaitTimeout, h)
    ensures Deciding(Run(RECONNECTING, s, Three(Quiet)), WaitTimeout, h)
  {
    RunThree(RECONNECTING, s, TaskStep(Quiet), TaskStep(Quiet), TaskStep(Quiet));
  }

  lemma FromLeave(s: State, h: seq<ClientEvent>)
    requires Waits(s, Leave, Held(TheTask, 1), WaitTimeout, h)
    ensures Deciding(Run(RECONNECTING, s, Three(Quiet)), WaitTimeout, h)
  {
    RunThree(RECONNECTING, s, TaskStep(Quiet), TaskStep(Quiet), TaskStep(Quiet));
  }

  lemma Expire(s: State, h: seq<ClientEvent>)
    requires Deciding(s, WaitTimeout, h)
    ensures Waits(Run(RECONNECTING, s, Three(Expired)), Top, Free, Init, h)
  {
    RunThree(RECONNECTING, s, TaskStep(Expired), TaskStep(Quiet), TaskStep(Quiet));
  }

  lemma Fail(s: State, h: seq<ClientEvent>)
    requires Deciding(s, Init, h)
    ensures Waits(Run(RECONNECTING, s, Three(Bad)), AfterSwitch, Free, WaitTimeout, h + [Terminal(false)])
  {
    RunThree(RECONNECTING, s, TaskStep(Bad), TaskStep(Quiet), TaskStep(Quiet));
  }

  lemma ConnectStep(s: State, h: seq<ClientEvent>)
    requires Deciding(s, Init, h)
    ensures Waits(Run(RECONNECTING, s, Three(Good)), AfterSwitch, Free, Connected, h + [ConnectedEvent])
  {
    RunThree(RECONNECTING, s, TaskStep(Good), TaskStep(Quiet), TaskStep(Quiet));
  }

  lemma Drop(s: State, h: seq<ClientEvent>)
    requires Waits(s, AfterSwitch, Free, Connected, h)
    ensures Waits(Run(RECONNECTING, s, Three(Bad)), Leave, Held(TheTask, 1), WaitTimeout, h + [Terminal(true)])
  {
    RunThree(RECONNECTING, s, TaskStep(Bad), TaskStep(Quiet), TaskStep(Quiet));
  }

  lemma RetryStep(s: State, h: seq<ClientEvent>)
    requires Deciding(s, WaitTimeout, h)
    ensures Deciding(Run(RECONNECTING, s, RETRY), Init, h)
  {
    hide Run, Do, Deciding, Waits;
    Expire(s, h);
    FromTop(Run(RECONNECTING, s, Three(Expired)), Init, h);
    RunAppend(RECONNECTING, s, Three(Expired), [TaskStep(Quiet), TaskStep(Quiet), SendStart(0)]);
  }

  lemma FailedStep(s: State, h: seq<ClientEvent>)
    requires Deciding(s, Init, h)
    ensures Deciding(Run(RECONNECTING, s, FAILED_ATTEMPT), WaitTimeout, h + [Terminal(false)])
  {
    hide Run, Do, Deciding, Waits;
    Fail(s, h);
    FromAfterSwitch(Run(RECONNECTING, s, Three(Bad)), h + [Terminal(false)]);
    RunAppend(RECONNECTING, s, Three(Bad), Three(Quiet));
  }

  lemma LoseStep(s: State)
    requires Deciding(s, Init, [])
    ensures Deciding(Run(RECONNECTING, s, LOST_CONNECTION), WaitTimeout, [ConnectedEvent, Terminal(true)])
  {
    hide Run, Do, Deciding, Waits;
    var up := Run(RECONNECTING, s, Three(Good));
    ConnectStep(s, []);
    Drop(up, [] + [ConnectedEvent]);
    FromLeave(Run(RECONNECTING, up, Three(Bad)), [] + [ConnectedEvent] + [Terminal(true)]);
    RunAppend(RECONNECTING, s, Three(Good), Three(Bad));
    RunAppend(RECONNECTING, s, Three(Good) + Three(Bad), Three(Quiet));
    assert [] + [ConnectedEvent] + [Terminal(true)] == [ConnectedEvent, Terminal(true)];
  }

  function Attempts(n: nat): seq<Action> {
    if n == 0 then [] else RETRY + FAILED_ATTEMPT + Attempts(n - 1)
  }

  function Spuriously(n: nat): seq<ClientEvent> {
    if n == 0 then [] else [Terminal(false)] + Spuriously(n - 1)
  }

  lemma {:induction false} FailedAttempts(s: State, h: seq<ClientEvent>, n: nat)
    requires Deciding(s, WaitTimeout, h)
    ensures Deciding(Run(RECONNECTING, s, Attempts(n)), WaitTimeout, h + Spuriously(n))
    decreases n
  {
    hide Deciding, Do;
    if n == 0 {
      assert h + Spuriously(0) == h;
    } else {
      RetryStep(s, h);
      FailedStep(Run(RECONNECTING, s, RETRY), h);
      RunAppend(RECONNECTING, s, RETRY, FAILED_ATTEMPT);
      RunAppend(RECONNECTING, s, RETRY + FAILED_ATTEMPT, Attempts(n - 1));
      FailedAttempts(Run(RECONNECTING, s, RETRY + FAILED_ATTEMPT), h + [Terminal(false)], n - 1);
      assert h + [Terminal(false)] + Spuriously(n - 1) == h + Spuriously(n);
    }
  }

  lemma OpeningStep()
    ensures Deciding(Run(RECONNECTING, LAUNCH, OPENING), Init, [])
  {
    RunThree(RECONNECTING, LAUNCH, Start, TaskStep(Quiet), TaskStep(Quiet));
  }

  /** No bound holds for the terminal events between two CONNECTED events: any number of failed attempts to
      reconnect adds as many. */
  lemma AnyNumberOfTerminals(n: nat)
    ensures Run(RECONNECTING, LAUNCH, OPENING + LOST_CONNECTION + Attempts(n) + RETRY + Three(Good)).client.history
         == [ConnectedEvent, Terminal(true)] + Spuriously(n) + [ConnectedEvent]
  {
    hide Run, Do, Deciding;
    var (a, b, c) := (OPENING, LOST_CONNECTION, Attempts(n));
    RunAppend(RECONNECTING, LAUNCH, a + b + c + RETRY, Three(Good));
    RunAppend(RECONNECTING, LAUNCH, a + b + c, RETRY);
    RunAppend(RECONNECTING, LAUNCH, a + b, c);
    RunAppend(RECONNECTING, LAUNCH, a, b);
    OpeningStep();
    LoseStep(Run(RECONNECTING, LAUNCH, a));
    var h := [ConnectedEvent, Terminal(true)];
    FailedAttempts(Run(RECONNECTING, LAUNCH, a + b), h, n);
    RetryStep(Run(RECONNECTING, LAUNCH, a + b + c), h + Spuriously(n));
    ConnectStep(Run(RECONNECTING, LAUNCH, a + b + c + RETRY), h + Spuriously(n));
  }
}
