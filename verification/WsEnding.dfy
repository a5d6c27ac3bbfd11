/** How a WebSocket connection and its task come to an end: after a stop, and after a CLOSE from the peer. */
module WsEnding {
  import opened WsSend
  import opened WsThreads

  // ----- a stopped client's task finishes -----

  function BackOf(e: Errand): Return {
    if e.Pong? then e.back else ToSwitch
  }

  /** Steps a task can still need before it has come round to the top of its loop. */
  function Distance(back: Return): nat {
    if back.ToPoll? then 3 else 12
  }

  /** Steps a stopped task can still need to its end. */
  function StopRank(pc: TaskPc): nat {
    match pc
    case Off => 0
    case Finishing => 1
    case Top => 2
    case Leave => 3
    case ReportClosed => 4
    case WantClosed => 5
    case WantError => 5
    case Lingering => 6
    case WantRead => 9
    case AfterSwitch => 10
    case EndSwitch => 11
    case Relock => 12
    case PongCheck => 13
    case Handshaken => 18
    case Switch => 19
    case WantSwitch => 20
    case Received(back) => Distance(back) + 1
    case Aborting(back) => if back.ToPoll? then 4 else 12
    case Receiving(back) => Distance(back) + 5
    case WantBack(e) => Distance(BackOf(e)) + 2
    case Both(e) => Distance(BackOf(e)) + 2
    case HasTx(e) => Distance(BackOf(e)) + 3
    case WantTx(e) => Distance(BackOf(e)) + 4
  }

  lemma LockedTaskAdvances(pc: TaskPc)
    requires WantsLock(pc)
    ensures StopRank(WithLock(pc)) < StopRank(pc)
  {
  }

  lemma UnlockedTaskAdvances(cfg: Config, s: State, a: Answer)
    requires !s.client.run && !s.task.Off? && !WantsLock(s.task) && Moves(s, TaskStep(a))
    ensures StopRank(TaskNext(cfg, s, a)) < StopRank(s.task)
  {
  }

  lemma StoppedTaskAdvances(cfg: Config, s: State, a: Answer)
    requires !s.client.run && !s.task.Off? && Moves(s, TaskStep(a))
    ensures StopRank(TaskNext(cfg, s, a)) < StopRank(s.task)
  {
    hide StopRank, WithLock;
    if WantsLock(s.task) {
      LockedTaskAdvances(s.task);
    } else {
      UnlockedTaskAdvances(cfg, s, a);
    }
  }

  lemma OffIsTold(cfg: Config, s: State, a: Answer)
    requires !s.task.Off? && TaskNext(cfg, s, a).Off?
    ensures TaskClient(cfg, s, a).history == s.client.history + [Finished]
  {
    hide Abort;
  }

  lemma StopLasts(cfg: Config, s: State, action: Action)
    requires !s.client.run && !s.task.Off?
    ensures var z := Do(cfg, s, action);
            !z.client.run && (!Moves(s, action) ==> z.task == s.task)
  {
    hide AfterAbort;
  }

  lemma StopAdvances(cfg: Config, s: State, action: Action)
    requires !s.client.run && !s.task.Off?
    ensures var z := Do(cfg, s, action);
            && !z.client.run
            && (if Moves(s, action) then StopRank(z.task) < StopRank(s.task) else z.task == s.task)
            && (z.task.Off? ==> z.client.history == s.client.history + [Finished])
  {
    StopLasts(cfg, s, action);
    hide TaskNext, TaskClient, StopRank, Moves, TaskLock, TaskTx;
    if Moves(s, action) {
      MoveIsTaskStep(s, action);
      StoppedTaskAdvances(cfg, s, action.a);
      if TaskNext(cfg, s, action.a).Off? {
        OffIsTold(cfg, s, action.a);
      }
    }
  }

  lemma MoveIsTaskStep(s: State, action: Action)
    requires Moves(s, action)
    ensures action.TaskStep?
  {
  }

  /** The task is off after the first k actions, and the last thing the client was told is that it has finished. */
  ghost predicate HasEnded(cfg: Config, s: State, actions: seq<Action>, k: nat)
    requires 0 < k <= |actions|
  {
    var (last, r) := (Run(cfg, s, actions[..k - 1]), Run(cfg, s, actions[..k]));
    r.task.Off? && r.client.history == last.client.history + [Finished]
  }

  lemma EndsLater(cfg: Config, s: State, actions: seq<Action>, k: nat)
    requires actions != [] && 0 < k <= |actions[1..]| && HasEnded(cfg, Do(cfg, s, actions[0]), actions[1..], k)
    ensures HasEnded(cfg, s, actions, k + 1)
  {
    hide Do;
    assert actions[..k + 1][1..] == actions[1..][..k] && actions[..k][1..] == actions[1..][..k - 1];
  }

  lemma EndsNow(cfg: Config, s: State, actions: seq<Action>)
    requires actions != []
    requires var z := Do(cfg, s, actions[0]); z.task.Off? && z.client.history == s.client.history + [Finished]
    ensures HasEnded(cfg, s, actions, 1)
  {
    hide Do;
    assert actions[..1][1..] == [] && actions[..0] == [];
    assert Run(cfg, Do(cfg, s, actions[0]), []) == Do(cfg, s, actions[0]);
  }

  /** Once a stop has been requested the task comes to its end, in every interleaving, after at most 20 steps that are
      not held up at a lock, and the client is told. */
  lemma {:induction false} StoppedTaskEnds(cfg: Config, s: State, actions: seq<Action>)
    requires !s.client.run && !s.task.Off? && Moved(cfg, s, actions) >= StopRank(s.task)
    ensures StopRank(s.task) <= 20
    ensures exists k :: 0 < k <= |actions| && HasEnded(cfg, s, actions, k)
    decreases |actions|
  {
    hide Do, Moves, HasEnded;
    assert StopRank(s.task) > 0;
    var z := Do(cfg, s, actions[0]);
    StopAdvances(cfg, s, actions[0]);
    if z.task.Off? {
      EndsNow(cfg, s, actions);
    } else {
      StoppedTaskEnds(cfg, z, actions[1..]);
      var k :| 0 < k <= |actions[1..]| && HasEnded(cfg, z, actions[1..], k);
      EndsLater(cfg, s, actions, k);
    }
  }

  // ----- a CLOSE from the peer is answered -----

  /** Nobody stops the client, and the task gets the transmit lock before its patience ends. */
  predicate Calm(s: State, action: Action) {
    !action.RequestStop? && !action.MarkClosing? && !(action.TaskStep? && action.a.Expired? && s.task.WantTx?)
  }

  ghost predicate CalmRun(cfg: Config, s: State, actions: seq<Action>)
    decreases |actions|
  {
    actions == [] || (Calm(s, actions[0]) && CalmRun(cfg, Do(cfg, s, actions[0]), actions[1..]))
  }

  /** Steps to the event that ends a connection the peer wants closed, a CLOSE frame of the client's on the way. */
  function CloseRank(pc: TaskPc, closeSent: bool): nat {
    match pc
    case ReportClosed => 1
    case WantClosed => 2
    case Lingering => 3
    case Both(_) => 6
    case HasTx(_) => 7
    case WantTx(_) => 8
    case Switch => 9
    case WantSwitch => 10
    case Top => 11
    case Leave => 12
    case AfterSwitch => if closeSent then 4 else 12
    case EndSwitch => if closeSent then 5 else 13
    case Relock => 14
    case Received(_) => 15
    case _ => 0
  }

  /** The task is on its way from receiving a CLOSE to the end of the connection. */
  predicate Closes(cfg: Config, s: State) {
    && s.client.state.Closing? && s.client.run
    && (s.task.ReportClosed? || s.task.WantClosed? || s.task.Lingering? ==> s.client.closeSent)
    && (s.task.ReportClosed? || s.task.WantClosed? ==> cfg.closeReconnect)
    && (s.task.Both? || s.task.HasTx? || s.task.WantTx? ==> OnCloseErrand(s.task) && !s.client.closeSent)
    && CloseRank(s.task, s.client.closeSent) > 0
  }

  predicate OnCloseErrand(pc: TaskPc) {
    pc == Both(CloseFrame) || pc == HasTx(CloseFrame) || pc == WantTx(CloseFrame)
  }

  /** How a closed connection leaves the client: about to reconnect, with nothing sent on the next connection yet, or
      stopped. */
  predicate LeftClosed(cfg: Config, c: ClientState) {
    if cfg.closeReconnect then c.state.WaitTimeout? && c.run && !c.closeSent else c.state.Unknown? && !c.run
  }

  /** A step on the way: nearer to its end, with nothing told to the client before that. */
  ghost predicate NearerToClosed(cfg: Config, s: State, z: State) {
    if z.client.history == s.client.history then
      && Closes(cfg, z) && CloseRank(z.task, z.client.closeSent) < CloseRank(s.task, s.client.closeSent)
      && (z.client.closeSent == s.client.closeSent || s.task == Both(CloseFrame))
    else
      s.client.closeSent && z.client.history == s.client.history + [Terminal(true)] && LeftClosed(cfg, z.client)
  }

  lemma TaskStepCloses(cfg: Config, s: State, a: Answer)
    requires Closes(cfg, s) && Moves(s, TaskStep(a)) && Calm(s, TaskStep(a))
    ensures NearerToClosed(cfg, s, Do(cfg, s, TaskStep(a)))
  {
    hide TaskLock, TaskTx, Abort;
  }

  lemma OthersLeaveClosing(cfg: Config, s: State, action: Action)
    requires Closes(cfg, s) && Calm(s, action) && !Moves(s, action)
    ensures var z := Do(cfg, s, action);
            z.task == s.task && z.client == s.client
  {
  }

  /** The event that ends the connection comes in this run, and not before the client has sent its CLOSE frame; sent
      says whether it had already. */
  ghost predicate EndsAnswered(cfg: Config, s: State, actions: seq<Action>, sent: bool)
    decreases |actions|
  {
    actions != [] &&
    var z := Do(cfg, s, actions[0]);
    if z.client.history == s.client.history then
      EndsAnswered(cfg, z, actions[1..], sent || (s.task == Both(CloseFrame) && z.client.closeSent))
    else sent && z.client.history == s.client.history + [Terminal(true)] && LeftClosed(cfg, z.client)
  }

  lemma {:induction false} ClosingRunEnds(cfg: Config, s: State, actions: seq<Action>, sent: bool)
    requires Closes(cfg, s) && CalmRun(cfg, s, actions) && (s.client.closeSent ==> sent)
    requires Moved(cfg, s, actions) >= CloseRank(s.task, s.client.closeSent)
    ensures EndsAnswered(cfg, s, actions, sent)
    decreases |actions|
  {
    hide Do, Moves, Closes, Calm, CloseRank;
    ClosingHasFarToGo(cfg, s);
    var (a, z) := (actions[0], Do(cfg, s, actions[0]));
    if Moves(s, a) {
      MoveIsTaskStep(s, a);
      TaskStepCloses(cfg, s, a.a);
    } else {
      OthersLeaveClosing(cfg, s, a);
    }
    if z.client.history == s.client.history {
      ClosingRunEnds(cfg, z, actions[1..], sent || (s.task == Both(CloseFrame) && z.client.closeSent));
    }
  }

  lemma ClosingHasFarToGo(cfg: Config, s: State)
    requires Closes(cfg, s)
    ensures CloseRank(s.task, s.client.closeSent) > 0
    ensures forall z: State :: z.task == s.task && z.client == s.client ==> Closes(cfg, z)
  {
  }

  /** A CLOSE received on a live connection, in every interleaving in which nobody stops the client and the transmit
      lock comes in time: within 15 further steps that are not held up the task sends its own CLOSE frame, unless the
      client had closed already, and then the one event that ends the connection. */
  lemma CloseIsAnswered(cfg: Config, s: State, actions: seq<Action>)
    requires s.task.Receiving? && Live(s.client.state) && s.client.run
    requires var z := Do(cfg, s, TaskStep(CloseArrives)); CalmRun(cfg, z, actions) && Moved(cfg, z, actions) >= 15
    ensures var z := Do(cfg, s, TaskStep(CloseArrives));
            EndsAnswered(cfg, z, actions, s.client.closeSent)
  {
    var z := Do(cfg, s, TaskStep(CloseArrives));
    assert z.task.Received? && Closes(cfg, z) && z.client.closeSent == s.client.closeSent;
    hide Do;
    ClosingRunEnds(cfg, z, actions, s.client.closeSent);
  }
}
