/** What the WebSocket task and its senders do when something happens: connecting, losing the connection, PING and PONG,
    data, a failed send. */
module WsReactions {
  import opened WsSend
  import opened WsThreads
  import opened WsEnding

  // ----- an errand sends its frame -----

  /** The task has both locks, looks at the state again, and sends the frame of its errand unless the connection has
      gone meanwhile. */
  predicate AtSending(s: State, e: Errand) {
    s.task == Both(e) && s.lock == Held(TheTask, 1) && s.tx == Held(TheTask, 1)
  }

  /** From s to z the client's state changed only if an event told so. */
  predicate KeptUnlessTold(s: State, z: State) {
    && |s.client.history| <= |z.client.history|
    && (|s.client.history| == |z.client.history| ==> z.client.state == s.client.state)
  }

  /** In this run the wait for the transmit lock does not run out. */
  ghost predicate Patient(cfg: Config, s: State, actions: seq<Action>)
    decreases |actions|
  {
    actions == []
    || (!(actions[0].TaskStep? && actions[0].a.Expired? && s.task.WantTx?)
        && Patient(cfg, Do(cfg, s, actions[0]), actions[1..]))
  }

  lemma ErrandGoesOn(cfg: Config, s: State, action: Action, e: Errand)
    requires s.task == WantTx(e) || s.task == HasTx(e)
    requires !(action.TaskStep? && action.a.Expired? && s.task.WantTx?)
    ensures var z := Do(cfg, s, action);
            && KeptUnlessTold(s, z)
            && if !Moves(s, action) then z.task == s.task else if s.task.WantTx? then z.task == HasTx(e)
               else z.task == Both(e)
  {
  }

  /** After the first k actions the task sends the frame of errand e, or has lost the connection it set out on. */
  ghost predicate SendsAfter(cfg: Config, s: State, actions: seq<Action>, k: nat, e: Errand)
    requires k <= |actions|
  {
    var z := Run(cfg, s, actions[..k]);
    AtSending(z, e) && KeptUnlessTold(s, z)
  }

  lemma SendsLater(cfg: Config, s: State, actions: seq<Action>, k: nat, e: Errand)
    requires actions != [] && k <= |actions[1..]| && KeptUnlessTold(s, Do(cfg, s, actions[0]))
    requires SendsAfter(cfg, Do(cfg, s, actions[0]), actions[1..], k, e)
    ensures SendsAfter(cfg, s, actions, k + 1, e)
  {
    hide Do, AtSending;
    assert actions[..k + 1][1..] == actions[1..][..k];
  }

  lemma SendsNow(cfg: Config, s: State, actions: seq<Action>, e: Errand)
    requires actions != [] && KeptUnlessTold(s, Do(cfg, s, actions[0]))
    requires LocksSafe(Do(cfg, s, actions[0])) && Do(cfg, s, actions[0]).task == Both(e)
    ensures SendsAfter(cfg, s, actions, 1, e)
  {
    hide Do, KeptUnlessTold;
    assert actions[..1][1..] == [] && Run(cfg, Do(cfg, s, actions[0]), []) == Do(cfg, s, actions[0]);
  }

  /** In every interleaving in which the transmit lock comes in time, two steps that are not held up bring the task to
      sending its frame, under both locks. */
  lemma {:induction false} ErrandIsDone(cfg: Config, s: State, actions: seq<Action>, e: Errand)
    requires LocksSafe(s) && (s.task == WantTx(e) || s.task == HasTx(e)) && Patient(cfg, s, actions)
    requires Moved(cfg, s, actions) >= if s.task.WantTx? then 2 else 1
    ensures exists k :: 0 < k <= |actions| && SendsAfter(cfg, s, actions, k, e)
    decreases |actions|
  {
    hide Do, Moves, AtSending, KeptUnlessTold, LocksSafe, SendsAfter;
    var z := Do(cfg, s, actions[0]);
    ErrandGoesOn(cfg, s, actions[0], e);
    DoKeepsLocks(cfg, s, actions[0]);
    if z.task == Both(e) {
      SendsNow(cfg, s, actions, e);
    } else {
      ErrandIsDone(cfg, z, actions[1..], e);
      var k :| 0 < k <= |actions[1..]| && SendsAfter(cfg, z, actions[1..], k, e);
      SendsLater(cfg, s, actions, k, e);
    }
  }

  lemma PingsSetOut(cfg: Config, s: State)
    ensures s.task.Receiving? && s.client.state.Connected? ==>
              var z := Do(cfg, s, TaskStep(PingArrives)); z.task == WantTx(Pong(s.task.back)) && z.client == s.client
    ensures s.task.Switch? && s.client.state.Connected? && !s.client.closeSent ==>
              var z := Do(cfg, s, TaskStep(Expired)); z.task == WantTx(Ping) && z.client == s.client
  {
  }

  /** A PING that arrives while the client is connected is answered with a PONG, unless the connection ends
      meanwhile. */
  lemma PingIsAnswered(cfg: Config, s: State, back: Return, actions: seq<Action>)
    requires LocksSafe(s) && s.task == Receiving(back) && s.client.state.Connected?
    requires var z := Do(cfg, s, TaskStep(PingArrives)); Patient(cfg, z, actions) && Moved(cfg, z, actions) >= 2
    ensures var z := Do(cfg, s, TaskStep(PingArrives));
            && z.client == s.client
            && exists k :: 0 < k <= |actions| && SendsAfter(cfg, z, actions, k, Pong(back))
  {
    PingsSetOut(cfg, s);
    DoKeepsLocks(cfg, s, TaskStep(PingArrives));
    hide *;
    ErrandIsDone(cfg, Do(cfg, s, TaskStep(PingArrives)), actions, Pong(back));
  }

  /** When its interval is over and the client has not closed, a PING is sent, unless the connection ends meanwhile. */
  lemma PingIsSent(cfg: Config, s: State, actions: seq<Action>)
    requires LocksSafe(s) && s.task.Switch? && s.client.state.Connected? && !s.client.closeSent
    requires var z := Do(cfg, s, TaskStep(Expired)); Patient(cfg, z, actions) && Moved(cfg, z, actions) >= 2
    ensures var z := Do(cfg, s, TaskStep(Expired));
            && z.client == s.client
            && exists k :: 0 < k <= |actions| && SendsAfter(cfg, z, actions, k, Ping)
  {
    PingsSetOut(cfg, s);
    DoKeepsLocks(cfg, s, TaskStep(Expired));
    hide *;
    ErrandIsDone(cfg, Do(cfg, s, TaskStep(Expired)), actions, Ping);
  }

  /** Once the client has closed no PING is sent; right after its PING the task looks whether a PONG is overdue, with
      the transmit lock given back; and a PONG in time ends nothing. */
  lemma PingsAreWatched(cfg: Config, s: State, a: Answer)
    requires LocksSafe(s)
    ensures s.task.Switch? ==>
              var z := Do(cfg, Do(cfg, s, MarkClosing), TaskStep(a));
              z.client.closeSent && z.task != WantTx(Ping) && (s.client.state.Connected? ==> z.task.EndSwitch?)
    ensures s.task == Both(Ping) && s.client.state.Connected? ==>
              var z := Do(cfg, s, TaskStep(a));
              z.task.PongCheck? && z.tx.Free? && z.lock == Held(TheTask, 1) && z.client == s.client
    ensures s.task.PongCheck? ==>
              var z := Do(cfg, s, TaskStep(Quiet)); z.task.EndSwitch? && z.client == s.client
  {
    hide Abort;
  }

  // ----- the task alone -----

  /** The task's next steps, with these answers, nobody else taking a lock meanwhile. */
  function Alone(cfg: Config, s: State, answers: seq<Answer>): State
    decreases |answers|
  {
    if answers == [] then s else Alone(cfg, Do(cfg, s, TaskStep(answers[0])), answers[1..])
  }

  lemma Two(cfg: Config, s: State, a: Answer, b: Answer)
    ensures Alone(cfg, s, [a, b]) == Do(cfg, Do(cfg, s, TaskStep(a)), TaskStep(b))
  {
    hide Do;
    assert [a, b][1..] == [b] && [b][1..] == [];
    var z := Do(cfg, s, TaskStep(a));
    assert Alone(cfg, z, [b]) == Alone(cfg, Do(cfg, z, TaskStep(b)), []);
  }

  /** The connection is over: one event that says so, and a client that waits to reconnect if it is to and otherwise
      runs no more. */
  predicate Over(cfg: Config, s: State, z: State) {
    && z.client.history == s.client.history + [Terminal(Live(s.client.state))]
    && z.client.run == (s.client.run && cfg.autoReconnect)
    && z.client.state == if cfg.autoReconnect then WaitTimeout else Unknown
  }

  /** A PING without its PONG, a read that fails and a connection attempt that fails each end the connection. */
  lemma FailuresEndTheConnection(cfg: Config, s: State)
    ensures s.task.PongCheck? && s.client.state.Connected? ==> Over(cfg, s, Alone(cfg, s, [Expired, Quiet]))
    ensures s.task.Receiving? && s.client.state.Connected? ==> Over(cfg, s, Alone(cfg, s, [Bad, Quiet]))
    ensures s.task.Switch? && s.client.state.Init? ==> Over(cfg, s, Alone(cfg, s, [Bad, Quiet]))
  {
    Two(cfg, s, Expired, Quiet);
    Two(cfg, s, Bad, Quiet);
    hide Alone, TaskLock, TaskTx;
  }

  /** A PONG whose wait for the transmit lock runs out ends the connection, as a failed read does. */
  lemma LatePongEnds(cfg: Config, s: State, back: Return)
    requires s.task == WantTx(Pong(back)) && s.client.state.Connected? && s.lock.Free?
    ensures var m := Alone(cfg, s, [Expired, Quiet]);
            m.task == Aborting(back) && Over(cfg, s, Do(cfg, m, TaskStep(Quiet)))
  {
    Two(cfg, s, Expired, Quiet);
    hide Alone;
  }

  /** A start has an effect only while the task is off, and begins an attempt to connect; an attempt that succeeds is
      announced, once, and bytes that came with the handshake are read; when the time to wait is over the next attempt
      is made, and not before. */
  lemma Connecting(cfg: Config, s: State, a: Answer)
    ensures var z := Do(cfg, s, Start);
            if s.task.Off? then z.task.Top? && z.client.state.Init? && z.client.run && !z.client.closeSent
            else z == s
    ensures s.task.Switch? && s.client.state.Init? ==>
              var z := Do(cfg, s, TaskStep(Good));
              && z.client.state.Connected? && z.client.history == s.client.history + [ConnectedEvent]
              && Alone(cfg, s, [Good, Good]).task == Receiving(ToSwitch)
              && Alone(cfg, s, [Good, Quiet]).task == EndSwitch
    ensures s.task.Switch? && s.client.state.WaitTimeout? ==>
              var z := Do(cfg, s, TaskStep(a));
              z.client == s.client.(state := if a.Expired? then Init else WaitTimeout) && z.task.EndSwitch?
  {
    Two(cfg, s, Good, Good);
    Two(cfg, s, Good, Quiet);
    hide Alone;
  }

  /** Bytes that are there to be read are read under the client lock; once the connection has gone nothing more is read
      or answered. */
  lemma DataIsRead(cfg: Config, s: State, a: Answer)
    ensures s.task.AfterSwitch? && s.client.state.Connected? && s.lock.Free? ==>
              var z := Alone(cfg, s, [Good, Quiet]); z.task == Receiving(ToPoll) && z.lock == Held(TheTask, 1)
    ensures s.task.Receiving? && !Live(s.client.state) ==>
              var z := Do(cfg, s, TaskStep(a)); z.task == Aborting(s.task.back) && z.client == s.client
  {
    Two(cfg, s, Good, Quiet);
    hide Alone;
  }

  lemma PollErrorAborts(cfg: Config, s: State)
    requires s.task.AfterSwitch? && s.client.state.Connected? && s.lock.Free?
    ensures var m := Alone(cfg, s, [Bad, Quiet]);
            m.task == Aborting(ToPoll) && m.client == s.client && m.lock == Held(TheTask, 1)
  {
    Two(cfg, s, Bad, Quiet);
    hide Alone;
  }

  /** An error of the poll ends the connection, and the lock is given back. */
  lemma PollErrorEnds(cfg: Config, s: State)
    requires s.task.AfterSwitch? && s.client.state.Connected? && s.lock.Free?
    ensures var z := Alone(cfg, Alone(cfg, s, [Bad, Quiet]), [Quiet, Quiet]); Over(cfg, s, z) && z.lock.Free?
  {
    var m := Alone(cfg, s, [Bad, Quiet]);
    PollErrorAborts(cfg, s);
    Two(cfg, m, Quiet, Quiet);
    hide Alone;
  }

  /** A stop ends the task, in every interleaving, within 20 steps that are not held up. */
  lemma StopEndsTheTask(cfg: Config, s: State, actions: seq<Action>)
    requires !s.task.Off? && Moved(cfg, Do(cfg, s, RequestStop), actions) >= 20
    ensures exists k :: 0 < k <= |actions| && HasEnded(cfg, Do(cfg, s, RequestStop), actions, k)
  {
    var z := Do(cfg, s, RequestStop);
    RankIsBounded(z.task);
    assert !z.client.run && z.task == s.task;
    hide Do, HasEnded;
    StoppedTaskEnds(cfg, z, actions);
  }

  lemma RankIsBounded(pc: TaskPc)
    ensures StopRank(pc) <= 20
  {
  }

  // ----- a sender -----

  /** No send begins unless the client is connected, and a wait for the lock that runs out ends it. Otherwise, once the
      lock is free: a send that succeeds gives it back and changes nothing else; one that fails ends the connection and
      gives both locks back. */
  lemma SendersGetThrough(cfg: Config, s: State, id: nat)
    ensures !s.client.state.Connected? ==> Do(cfg, s, SendStart(id)) == s
    ensures At(s, id).WantSend? ==>
              At(Do(cfg, s, SenderStep(id, Expired)), id).Outside? && Do(cfg, s, SenderStep(id, Expired)).tx == s.tx
    ensures At(s, id).Outside? && s.client.state.Connected? && s.tx.Free? ==>
              var z := Do(cfg, Do(cfg, s, SendStart(id)), SenderStep(id, Quiet));
              && At(z, id).Sending? && z.tx == Held(Sender(id), 1) && z.client == s.client
              && var good := Do(cfg, z, SenderStep(id, Good));
                 At(good, id).Outside? && good.tx.Free? && good.client == s.client
  {
    hide TaskNext, TaskClient, Abort;
  }

  lemma FailedSendEnds(cfg: Config, s: State, id: nat)
    requires At(s, id).Sending? && s.client.state.Connected? && s.lock.Free? && s.tx == Held(Sender(id), 1)
    ensures var z := Do(cfg, Do(cfg, Do(cfg, s, SenderStep(id, Bad)), SenderStep(id, Quiet)), SenderStep(id, Quiet));
            && Over(cfg, s, z) && z.tx.Free? && z.lock == Held(Sender(id), 1)
            && var out := Do(cfg, z, SenderStep(id, Quiet));
               At(out, id).Outside? && out.lock.Free? && out.client == z.client
  {
    hide TaskNext, TaskClient;
  }
}
