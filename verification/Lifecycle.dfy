/** The life cycle of the application manager and of the HAL below it: init, start, stop, deinit, in any order and
    with any failures. */
module Lifecycle {

  datatype Phase = Uninit | Ready | Running | Stopped

  datatype Status = Done | InvalidState | Failure

  datatype Op = Init | Start | Stop | Deinit

  /** hal, app: the two current_state variables. bound: the core has its callbacks. queues, mutexes: those of the
      event queues exist. nullDeletes: how often the kernel was asked to delete a NULL mutex. log: the calls that
      succeeded, in order. */
  datatype Sys = Sys(
    hal: Phase, app: Phase, bound: bool, queues: bool, mutexes: bool, endFlag: bool, nullDeletes: nat, log: seq<Op>)

  /** halOk: the UART driver agrees. appOk: the queues (at init) or the decoder task (at start) can be created.
      mutexOk: so can the mutexes. */
  datatype Call = Call(op: Op, halOk: bool, appOk: bool, mutexOk: bool)

  const POWER_ON := Sys(Uninit, Uninit, false, false, false, false, 0, [])

  /** Phases in which the documentation allows a call, at either layer. */
  predicate Allowed(op: Op, phase: Phase) {
    match op
    case Init => phase.Uninit?
    case Start => phase.Ready? || phase.Stopped?
    case Stop => phase.Running?
    case Deinit => phase.Ready? || phase.Stopped?
  }

  function Target(op: Op): Phase {
    match op
    case Init => Ready
    case Start => Running
    case Stop => Stopped
    case Deinit => Uninit
  }

  /** The HAL's part of a call, and whether it succeeded. A failing init has bound the callbacks already. */
  function HalCall(s: Sys, op: Op, halOk: bool): (Sys, bool) {
    if !Allowed(op, s.hal) then (s, false)
    else if !halOk then (if op.Init? then s.(bound := true) else s, false)
    else (s.(hal := Target(op), bound := if op.Start? then s.bound else op.Init?), true)
  }

  function AppCall(s: Sys, c: Call): (Sys, Status) {
    if !Allowed(c.op, s.app) then (s, InvalidState)
    else
      var (h, ok) := HalCall(s, c.op, c.halOk);
      if !ok then (h, Failure)
      else
        var done := h.(app := Target(c.op), log := h.log + [c.op]);
        match c.op
        case Init =>
          if !c.appOk then (h.(queues := false), Failure)
          else if !c.mutexOk then (h.(queues := true, mutexes := false), Failure)
          else (done.(queues := true, mutexes := true, endFlag := false), Done)
        case Start => if c.appOk then (done, Done) else (h, Failure)
        case Stop =>
          (done.(queues := false, mutexes := false, endFlag := true,
                 nullDeletes := s.nullDeletes + if s.mutexes then 0 else 2), Done)
        case Deinit => (done.(endFlag := false), Done)
  }

  // ----- every sequence of calls -----

  function Run(s: Sys, calls: seq<Call>): Sys
    decreases |calls|
  {
    if calls == [] then s else Run(AppCall(s, calls[0]).0, calls[1..])
  }

  /** The phase the documentation assigns to a client that has made these calls. */
  function PhaseAfter(log: seq<Op>): Phase {
    if log == [] then Uninit else Target(log[|log| - 1])
  }

  /** Each successful call was allowed where it was made. */
  ghost predicate Documented(log: seq<Op>) {
    forall i :: 0 <= i < |log| ==> Allowed(log[i], PhaseAfter(log[..i]))
  }

  /** Sending and receiving can work: frames are parsed, events have their queues, the decoder task keeps running. */
  predicate Usable(s: Sys) {
    s.hal.Running? && s.bound && s.queues && s.mutexes && !s.endFlag
  }

  /** How many stops came after a start that came after a stop. */
  function SecondStops(log: seq<Op>): nat {
    if |log| < 3 then 0
    else
      var n := |log|;
      SecondStops(log[..n - 1]) + if log[n - 1].Stop? && log[n - 3].Stop? then 1 else 0
  }

  ghost predicate Consistent(s: Sys) {
    && Documented(s.log) && s.app == PhaseAfter(s.log)
    && (s.app.Ready? ==> s.bound && s.queues && s.mutexes && !s.endFlag)
    && (s.app.Stopped? ==> !s.bound && !s.queues && !s.mutexes && s.endFlag)
    && (s.app.Running? ==>
          && s.hal.Running? && |s.log| >= 2 && s.log[|s.log| - 2] in {Init, Stop}
          && (s.mutexes <==> s.log[|s.log| - 2].Init?)
          && (Usable(s) <==> s.log[|s.log| - 2].Init?))
    && s.nullDeletes == 2 * SecondStops(s.log)
    && (s.hal == s.app || (s.hal.Ready? && s.app.Uninit?) || (s.hal.Running? && (s.app.Ready? || s.app.Stopped?)))
  }

  lemma AppendDocumented(log: seq<Op>, op: Op)
    requires Documented(log) && Allowed(op, PhaseAfter(log))
    ensures Documented(log + [op]) && PhaseAfter(log + [op]) == Target(op)
    ensures SecondStops(log + [op])
         == SecondStops(log) + if op.Stop? && |log| >= 2 && log[|log| - 2].Stop? then 1 else 0
  {
    assert (log + [op])[..|log|] == log;
    forall i | 0 <= i < |log + [op]| ensures Allowed((log + [op])[i], PhaseAfter((log + [op])[..i])) {
      assert (log + [op])[..i] == log[..i];
      if i == |log| {
        assert log[..i] == log;
      }
    }
  }

  lemma CallKeepsConsistent(s: Sys, c: Call)
    requires Consistent(s)
    ensures Consistent(AppCall(s, c).0)
  {
    hide Documented, SecondStops;
    if Allowed(c.op, s.app) {
      AppendDocumented(s.log, c.op);
    }
  }

  lemma {:induction false} RunIsConsistent(s: Sys, calls: seq<Call>)
    requires Consistent(s)
    ensures Consistent(Run(s, calls))
    decreases |calls|
  {
    hide Consistent, AppCall;
    if calls != [] {
      CallKeepsConsistent(s, calls[0]);
      RunIsConsistent(AppCall(s, calls[0]).0, calls[1..]);
    }
  }

  /** Whatever is called, the calls that succeed follow the documented life cycle. The promise that data can be sent
      and received while running holds exactly when the system was started from init: a start after a stop finds the
      parser without callbacks, no event queues or mutexes, and the end flag still up. */
  lemma RunningIsUsableIffStartedFromInit(calls: seq<Call>)
    ensures var s := Run(POWER_ON, calls);
            && Documented(s.log) && s.app == PhaseAfter(s.log)
            && (s.app.Running? ==> |s.log| >= 2 && (Usable(s) <==> s.log[|s.log| - 2].Init?))
  {
    RunIsConsistent(POWER_ON, calls);
    hide Documented, Usable, Run;
  }

  /** The kernel is asked to delete a NULL mutex exactly twice for every stop of a system that had been started from
      a stop, and otherwise never. */
  lemma NullMutexesAreDeletedBySecondStops(calls: seq<Call>)
    ensures Run(POWER_ON, calls).nullDeletes == 2 * SecondStops(Run(POWER_ON, calls).log)
  {
    RunIsConsistent(POWER_ON, calls);
    hide Run, SecondStops, Documented, Usable;
  }

  function Fine(op: Op): Call {
    Call(op, true, true, true)
  }

  /** Init, start, stop, start leaves the system running and not usable; one more stop deletes two NULL mutexes. */
  lemma RestartIsNotUsable()
    ensures var s := Run(POWER_ON, [Fine(Init), Fine(Start), Fine(Stop), Fine(Start)]);
            s.app.Running? && s.hal.Running? && !Usable(s) && s.nullDeletes == 0
    ensures Run(POWER_ON, [Fine(Init), Fine(Start), Fine(Stop), Fine(Start), Fine(Stop)]).nullDeletes == 2
  {
    var front := [Fine(Init), Fine(Start), Fine(Stop), Fine(Start)];
    var none: seq<Call> := [];
    RestartRuns(none);
    RestartRuns([Fine(Stop)] + none);
    Then(RESTARTED, Fine(Stop), none);
    assert front + none == front && front + ([Fine(Stop)] + none) == front + [Fine(Stop)];
    assert front + [Fine(Stop)] == [Fine(Init), Fine(Start), Fine(Stop), Fine(Start), Fine(Stop)];
  }

  const READY := Sys(Ready, Ready, true, true, true, false, 0, [Init])
  const RUNNING := Sys(Running, Running, true, true, true, false, 0, [Init, Start])
  const STOPPED := Sys(Stopped, Stopped, false, false, false, true, 0, [Init, Start, Stop])
  const RESTARTED := Sys(Running, Running, false, false, false, true, 0, [Init, Start, Stop, Start])

  lemma RestartSteps()
    ensures AppCall(POWER_ON, Fine(Init)).0 == READY && AppCall(READY, Fine(Start)).0 == RUNNING
    ensures AppCall(RUNNING, Fine(Stop)).0 == STOPPED && AppCall(STOPPED, Fine(Start)).0 == RESTARTED
  {
  }

  lemma RestartRuns(more: seq<Call>)
    ensures Run(POWER_ON, [Fine(Init), Fine(Start), Fine(Stop), Fine(Start)] + more) == Run(RESTARTED, more)
  {
    RestartSteps();
    hide *;
    var third := [Fine(Start)] + more;
    var second := [Fine(Stop)] + third;
    var first := [Fine(Start)] + second;
    Then(POWER_ON, Fine(Init), first);
    Then(READY, Fine(Start), second);
    Then(RUNNING, Fine(Stop), third);
    Then(STOPPED, Fine(Start), more);
    assert [Fine(Init)] + first == [Fine(Init), Fine(Start), Fine(Stop), Fine(Start)] + more;
  }

  lemma Then(s: Sys, c: Call, rest: seq<Call>)
    ensures Run(s, [c] + rest) == Run(AppCall(s, c).0, rest)
  {
    assert ([c] + rest)[1..] == rest;
  }

  // ----- half-done calls -----

  /** The driver agrees but the application's part fails. */
  predicate HalfDone(c: Call) {
    c.halOk && ((c.op.Init? && !(c.appOk && c.mutexOk)) || (c.op.Start? && !c.appOk))
  }

  /** The layers fall out of step exactly by an allowed call that gets half done. */
  lemma LayersPartBy(s: Sys, c: Call)
    requires s.hal == s.app
    ensures AppCall(s, c).0.hal != AppCall(s, c).0.app <==> Allowed(c.op, s.app) && HalfDone(c)
  {
  }

  lemma {:induction false} PartedStays(s: Sys, calls: seq<Call>)
    requires Consistent(s) && s.hal != s.app
    ensures Run(s, calls) == s
    decreases |calls|
  {
    if calls != [] {
      assert AppCall(s, calls[0]).0 == s;
      PartedStays(s, calls[1..]);
    }
  }

  /** After any calls: some call can still succeed if and only if the two layers are in step. Once they are not, no
      call changes anything any more, deinit included. */
  lemma StuckIffOutOfStep(calls: seq<Call>)
    ensures var s := Run(POWER_ON, calls);
            && (s.hal == s.app <==> exists c :: AppCall(s, c).1.Done?)
            && (s.hal != s.app ==> forall more :: Run(s, more) == s)
  {
    RunIsConsistent(POWER_ON, calls);
    var s := Run(POWER_ON, calls);
    hide Run;
    if s.hal == s.app {
      var op := match s.app case Uninit => Init case Ready => Start case Running => Stop case Stopped => Start;
      assert AppCall(s, Fine(op)).1.Done?;
    } else {
      forall more ensures Run(s, more) == s {
        PartedStays(s, more);
      }
    }
  }

  /** An init that finds no memory for its queues is the end: the HAL stays initialised and nothing helps. */
  lemma HalfDoneInitIsFatal(more: seq<Call>)
    ensures var s := Run(POWER_ON, [Call(Init, true, false, true)] + more);
            s.app.Uninit? && s.hal.Ready? && s.log == []
  {
    var first := Call(Init, true, false, true);
    Then(POWER_ON, first, more);
    CallKeepsConsistent(POWER_ON, first);
    hide Run, Consistent;
    PartedStays(AppCall(POWER_ON, first).0, more);
  }

  /** When a call succeeds, and what a caller then has. */
  lemma CallTells(s: Sys, c: Call)
    requires Consistent(s)
    ensures var (r, status) := AppCall(s, c);
            && (status.Done? <==> s.app == s.hal && Allowed(c.op, s.app) && c.halOk && !HalfDone(c))
            && (status.InvalidState? <==> !Allowed(c.op, s.app))
            && (status.Done? && c.op.Start? ==> (Usable(r) <==> s.app.Ready?))
            && (status.Done? && c.op.Stop? ==> !Usable(r))
            && (s.app.Running? ==> s.hal.Running? && (s.mutexes <==> Usable(s)))
            && r.nullDeletes == s.nullDeletes + if status.Done? && c.op.Stop? && !Usable(s) then 2 else 0
  {
    hide Documented, SecondStops, PhaseAfter;
  }

  // ----- the code -----

  /** A queue or mutex of the kernel, or the core's table of callbacks. */
  class Handle {
    constructor () {
    }
  }

  class Manager {
    var hal: Phase
    var app: Phase
    var halFunctions: Handle?
    var reportQueue: Handle?
    var responseQueue: Handle?
    var reportMutex: Handle?
    var responseMutex: Handle?
    var endFlag: bool
    ghost var nullDeletes: nat
    ghost var log: seq<Op>

    ghost function View(): Sys
      reads this
    {
      Sys(hal, app, halFunctions != null, reportQueue != null && responseQueue != null,
          reportMutex != null && responseMutex != null, endFlag, nullDeletes, log)
    }

    /** The two mutexes come and go together. */
    ghost predicate Valid()
      reads this
    {
      Consistent(View()) && (!app.Uninit? ==> (reportMutex == null <==> responseMutex == null))
    }

    constructor ()
      ensures Valid() && View() == POWER_ON
    {
      hal, app, endFlag, nullDeletes, log := Uninit, Uninit, false, 0, [];
      halFunctions, reportQueue, responseQueue, reportMutex, responseMutex := null, null, null, null, null;
    }

    method HalInit(uartOk: bool) returns (ok: bool)
      modifies this`hal, this`halFunctions
      ensures ok == (old(hal).Uninit? && uartOk) && hal == (if ok then Ready else old(hal))
      ensures (halFunctions != null) == (old(hal).Uninit? || old(halFunctions) != null)
    {
      if !hal.Uninit? {
        return false;
      }
      halFunctions := new Handle();
      if !uartOk {
        return false;
      }
      hal := Ready;
      ok := true;
    }

    method HalStart(uartOk: bool) returns (ok: bool)
      modifies this`hal
      ensures ok == ((old(hal).Ready? || old(hal).Stopped?) && uartOk) && hal == if ok then Running else old(hal)
    {
      if (!hal.Ready? && !hal.Stopped?) || !uartOk {
        return false;
      }
      hal := Running;
      ok := true;
    }

    /** The core's stop drops its callbacks. */
    method HalStop(uartOk: bool) returns (ok: bool)
      modifies this`hal, this`halFunctions
      ensures ok == (old(hal).Running? && uartOk) && hal == (if ok then Stopped else old(hal))
      ensures halFunctions == if ok then null else old(halFunctions)
    {
      if !hal.Running? || !uartOk {
        return false;
      }
      halFunctions := null;
      hal := Stopped;
      ok := true;
    }

    method HalDeinit(uartOk: bool) returns (ok: bool)
      modifies this`hal, this`halFunctions
      ensures ok == ((old(hal).Ready? || old(hal).Stopped?) && uartOk) && hal == (if ok then Uninit else old(hal))
      ensures halFunctions == if ok then null else old(halFunctions)
    {
      if (!hal.Stopped? && !hal.Ready?) || !uartOk {
        return false;
      }
      halFunctions := null;
      hal := Uninit;
      ok := true;
    }

    method CreateQueues(granted: bool)
      modifies this`reportQueue, this`responseQueue
      ensures (reportQueue != null) == (responseQueue != null) == granted
    {
      reportQueue, responseQueue := null, null;
      if granted {
        reportQueue := new Handle();
        responseQueue := new Handle();
      }
    }

    method CreateMutexes(granted: bool)
      modifies this`reportMutex, this`responseMutex
      ensures (reportMutex != null) == (responseMutex != null) == granted
    {
      reportMutex, responseMutex := null, null;
      if granted {
        reportMutex := new Handle();
        responseMutex := new Handle();
      }
    }

    /** Succeeds exactly on a system that neither layer has initialised, if everything can be created; then nothing
        is missing. Failing half-way it leaves the layers out of step for good (StuckIffOutOfStep). */
    method InitSys(halOk: bool, queuesOk: bool, mutexesOk: bool) returns (status: Status)
      requires Valid()
      modifies this
      ensures Valid() && (View(), status) == AppCall(old(View()), Call(Init, halOk, queuesOk, mutexesOk))
      ensures status.Done? <==> old(app).Uninit? && old(hal).Uninit? && halOk && queuesOk && mutexesOk
      ensures status == InvalidState <==> !old(app).Uninit?
      ensures status.Done? ==> halFunctions != null && reportQueue != null && responseQueue != null && !endFlag
                               && reportMutex != null && responseMutex != null
      ensures !status.Done? && hal != old(hal) ==> hal.Ready? && app.Uninit?
    {
      hide Consistent, Usable;
      CallKeepsConsistent(View(), Call(Init, halOk, queuesOk, mutexesOk));
      CallTells(View(), Call(Init, halOk, queuesOk, mutexesOk));
      if !app.Uninit? {
        return InvalidState;
      }
      var ok := HalInit(halOk);
      if !ok {
        return Failure;
      }
      CreateQueues(queuesOk);
      if reportQueue == null || responseQueue == null {
        return Failure;
      }
      CreateMutexes(mutexesOk);
      if reportMutex == null || responseMutex == null {
        return Failure;
      }
      endFlag := false;
      app := Ready;
      log := log + [Init];
      status := Done;
    }

    /** Succeeds exactly when both layers are initialised or both stopped and driver and task agree. It creates
        nothing, so the system is usable exactly if it comes from init. */
    method StartSys(halOk: bool, taskOk: bool) returns (status: Status)
      requires Valid()
      modifies this
      ensures Valid() && (View(), status) == AppCall(old(View()), Call(Start, halOk, taskOk, true))
      ensures status.Done? <==> old(app) == old(hal) && old(app) in {Ready, Stopped} && halOk && taskOk
      ensures status == InvalidState <==> old(app) !in {Ready, Stopped}
      ensures status.Done? ==> (Usable(View()) <==> old(app).Ready?)
      ensures !status.Done? && hal != old(hal) ==> hal.Running? && app == old(app)
    {
      hide Consistent, Usable;
      CallKeepsConsistent(View(), Call(Start, halOk, taskOk, true));
      CallTells(View(), Call(Start, halOk, taskOk, true));
      if !app.Ready? && !app.Stopped? {
        return InvalidState;
      }
      var ok := HalStart(halOk);
      if !ok || !taskOk {
        return Failure;
      }
      app := Running;
      log := log + [Start];
      status := Done;
    }

    /** Succeeds exactly while running, if the driver agrees. Nothing is left to use, and the kernel is asked to
        delete two NULL mutexes exactly if the system was not usable. */
    method StopSys(halOk: bool) returns (status: Status)
      requires Valid()
      modifies this
      ensures Valid() && (View(), status) == AppCall(old(View()), Call(Stop, halOk, true, true))
      ensures status.Done? <==> old(app).Running? && halOk
      ensures status == InvalidState <==> !old(app).Running?
      ensures status.Done? ==> !Usable(View()) && halFunctions == null && reportQueue == null && responseQueue == null
                               && reportMutex == null && responseMutex == null
      ensures nullDeletes == old(nullDeletes) + if status.Done? && !old(Usable(View())) then 2 else 0
      ensures !status.Done? ==> View() == old(View())
    {
      hide Consistent, Usable;
      CallKeepsConsistent(View(), Call(Stop, halOk, true, true));
      CallTells(View(), Call(Stop, halOk, true, true));
      if !app.Running? {
        return InvalidState;
      }
      var ok := HalStop(halOk);
      if !ok {
        return Failure;
      }
      endFlag := true;
      DeleteMutex(reportMutex);
      DeleteMutex(responseMutex);
      reportMutex, responseMutex := null, null;
      reportQueue, responseQueue := null, null;
      app := Stopped;
      log := log + [Stop];
      status := Done;
    }

    /** platform_delete_mutex hands NULL on to the kernel; platform_queue_delete does not. */
    method DeleteMutex(m: Handle?)
      modifies this`nullDeletes
      ensures nullDeletes == old(nullDeletes) + if m == null then 1 else 0
    {
      if m == null {
        nullDeletes := nullDeletes + 1;
      }
    }

    /** Succeeds exactly when both layers are initialised or both stopped, if the driver agrees; then init can
        succeed again. */
    method DeinitSys(halOk: bool) returns (status: Status)
      requires Valid()
      modifies this
      ensures Valid() && (View(), status) == AppCall(old(View()), Call(Deinit, halOk, true, true))
      ensures status.Done? <==> old(app) == old(hal) && old(app) in {Ready, Stopped} && halOk
      ensures status == InvalidState <==> old(app) !in {Ready, Stopped}
      ensures status.Done? ==> app.Uninit? && hal.Uninit? && halFunctions == null
      ensures !status.Done? ==> View() == old(View())
    {
      hide Consistent, Usable;
      CallKeepsConsistent(View(), Call(Deinit, halOk, true, true));
      CallTells(View(), Call(Deinit, halOk, true, true));
      if !app.Stopped? && !app.Ready? {
        return InvalidState;
      }
      var ok := HalDeinit(halOk);
      if !ok {
        return Failure;
      }
      endFlag := false;
      app := Uninit;
      log := log + [Deinit];
      status := Done;
    }
  }
}
