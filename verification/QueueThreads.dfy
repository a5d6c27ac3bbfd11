/** The same queue under concurrent use: the decoder task pushing and any number of pollers, interleaved
    between any two statements, with the mutex as the only protection. */
module QueueThreads {
  import opened EventQueue

  /** Where a thread is. Polling remembers how long the queue was when the mutex was taken. */
  datatype Pc<T> =
    | Outside
    | WantPush(e: T) | Sending(e: T) | Discarding(e: T) | Resending(e: T) | Failed(e: T)
    | WantPoll | Polling(seen: nat)
    | Leaving

  datatype Holder = Nobody | Thread(id: nat)

  datatype State<T> = State(holder: Holder, pcs: map<nat, Pc<T>>, life: Window<T>)

  /** Go lets thread t take its next step; GiveUp is the end of a poller's waiting time. */
  datatype Action<T> = Push(t: nat, e: T) | Poll(t: nat) | Go(t: nat) | GiveUp(t: nat)

  function At<T>(s: State<T>, t: nat): Pc<T> {
    if t in s.pcs then s.pcs[t] else Outside
  }

  function Move<T>(s: State<T>, t: nat, pc: Pc<T>): State<T> {
    s.(pcs := s.pcs[t := pc])
  }

  /** The step of a thread; a thread that cannot step (mutex taken, nothing to wait for) stays where it is. */
  function Advance<T>(s: State<T>, t: nat): (r: State<T>)
    requires s.life.queued <= |s.life.pushed|
    ensures r.life.queued <= |r.life.pushed|
  {
    match At(s, t)
    case Outside => s
    case WantPush(e) => if s.holder.Nobody? then Move(s, t, Sending(e)).(holder := Thread(t)) else s
    case Sending(e) =>
      if s.life.queued < CAPACITY then Move(s, t, Leaving).(life := Send(s.life, e)) else Move(s, t, Discarding(e))
    case Discarding(e) =>
      Move(s, t, Resending(e)).(life := if s.life.queued > 0 then DropOldest(s.life) else s.life)
    case Resending(e) =>
      if s.life.queued < CAPACITY then Move(s, t, Leaving).(life := Send(s.life, e)) else Move(s, t, Failed(e))
    case Failed(e) => Move(s, t, Leaving)
    case WantPoll => if s.holder.Nobody? then Move(s, t, Polling(s.life.queued)).(holder := Thread(t)) else s
    case Polling(_) => if s.life.queued > 0 then Move(s, t, Leaving).(life := PollOldest(s.life)) else s
    case Leaving => Move(s, t, Outside).(holder := Nobody)
  }

  function Do<T>(s: State<T>, a: Action<T>): (r: State<T>)
    requires s.life.queued <= |s.life.pushed|
    ensures r.life.queued <= |r.life.pushed|
  {
    match a
    case Push(t, e) => if At(s, t).Outside? then Move(s, t, WantPush(e)) else s
    case Poll(t) => if At(s, t).Outside? then Move(s, t, WantPoll) else s
    case Go(t) => Advance(s, t)
    case GiveUp(t) => if At(s, t).Polling? && s.life.queued == 0 then Move(s, t, Leaving) else s
  }

  predicate Critical<T>(pc: Pc<T>) {
    !pc.Outside? && !pc.WantPush? && !pc.WantPoll?
  }

  /** What a thread at pc knows about the queue. */
  predicate Knows<T>(pc: Pc<T>, queued: nat) {
    match pc
    case Discarding(_) => queued == CAPACITY
    case Resending(_) => queued == CAPACITY - 1
    case Failed(_) => false
    case Polling(seen) => queued == seen
    case _ => true
  }

  ghost predicate Safe<T>(s: State<T>) {
    && s.life.queued <= |s.life.pushed| && Accounted(s.life)
    && (forall t :: Critical(At(s, t)) <==> s.holder == Thread(t))
    && (forall t :: Knows(At(s, t), s.life.queued))
  }

  function Begin<T>(): State<T> {
    State(Nobody, map[], EmptyWindow())
  }

  /** Any interleaving is some sequence of actions. */
  function RunThreads<T>(s: State<T>, actions: seq<Action<T>>): (r: State<T>)
    requires s.life.queued <= |s.life.pushed|
    ensures r.life.queued <= |r.life.pushed|
    decreases |actions|
  {
    if actions == [] then s else RunThreads(Do(s, actions[0]), actions[1..])
  }

  lemma DoKeepsAccount<T>(s: State<T>, a: Action<T>)
    requires Safe(s)
    ensures Accounted(Do(s, a).life)
  {
    if a.Go? {
      var pc := At(s, a.t);
      if (pc.Sending? || pc.Resending?) && s.life.queued < CAPACITY {
        SendIsAccounted(s.life, pc.e);
      } else if (pc.Discarding? || pc.Polling?) && s.life.queued > 0 {
        TakeIsAccounted(s.life);
      }
    }
  }

  /** From s to z only thread t acted: it took, held or gave back the mutex, and touched the queue only inside. */
  ghost predicate ActedAlone<T>(s: State<T>, z: State<T>, t: nat) {
    && (forall u :: u != t ==> At(z, u) == At(s, u))
    && (z.life.queued == s.life.queued || Critical(At(s, t)))
    && (|| z.holder == s.holder
        || (s.holder == Nobody && z.holder == Thread(t)) || (s.holder == Thread(t) && z.holder == Nobody))
    && (Critical(At(z, t)) <==> z.holder == Thread(t))
    && Knows(At(z, t), z.life.queued)
  }

  lemma OthersStay<T>(s: State<T>, a: Action<T>)
    requires s.life.queued <= |s.life.pushed|
    ensures forall u :: u != a.t ==> At(Do(s, a), u) == At(s, u)
  {
  }

  lemma DoActsAlone<T>(s: State<T>, a: Action<T>)
    requires Safe(s)
    ensures ActedAlone(s, Do(s, a), a.t)
  {
    OthersStay(s, a);
    hide Increasing;
    var (t, z) := (a.t, Do(s, a));
    assert Critical(At(s, t)) <==> s.holder == Thread(t);
    assert Knows(At(s, t), s.life.queued);
    assert At(z, t) == if t in z.pcs then z.pcs[t] else Outside;
  }

  lemma ActingAloneIsSafe<T>(s: State<T>, z: State<T>, t: nat)
    requires Safe(s) && ActedAlone(s, z, t) && z.life.queued <= |z.life.pushed| && Accounted(z.life)
    ensures Safe(z)
  {
    hide Accounted;
    forall u ensures Critical(At(z, u)) <==> z.holder == Thread(u) {
    }
    forall u ensures Knows(At(z, u), z.life.queued) {
      if u != t && z.life.queued != s.life.queued {
        assert !Critical(At(s, u));
      }
    }
  }

  lemma DoIsSafe<T>(s: State<T>, a: Action<T>)
    requires Safe(s)
    ensures Safe(Do(s, a))
  {
    hide Accounted, Do, ActedAlone;
    DoKeepsAccount(s, a);
    DoActsAlone(s, a);
    ActingAloneIsSafe(s, Do(s, a), a.t);
  }

  lemma {:induction false} RunIsSafe<T>(s: State<T>, actions: seq<Action<T>>)
    requires Safe(s)
    ensures Safe(RunThreads(s, actions))
    decreases |actions|
  {
    if actions != [] {
      DoIsSafe(s, actions[0]);
      RunIsSafe(Do(s, actions[0]), actions[1..]);
    }
  }

  /** In every interleaving: the queue is the newest part of what was pushed, never longer than its capacity;
      every event is polled, dropped or queued, exactly once; and no second send ever fails. */
  lemma EveryEventIsAccounted<T>(actions: seq<Action<T>>)
    ensures var s := RunThreads(Begin<T>(), actions);
            Accounted(s.life) && forall t :: !At(s, t).Failed?
  {
    RunIsSafe(Begin<T>(), actions);
    var s := RunThreads(Begin<T>(), actions);
    forall t ensures !At(s, t).Failed? {
      assert Knows(At(s, t), s.life.queued);
    }
  }

  /** A poller holds the mutex while it waits, so nothing can be pushed meanwhile: it gets an event exactly
      when the queue was not empty at the moment it took the mutex; otherwise only its time running out helps. */
  lemma WaitingPollersWaitInVain<T>(actions: seq<Action<T>>, t: nat)
    ensures var s := RunThreads(Begin<T>(), actions);
            At(s, t).Polling? ==>
              && (Do(s, Go(t)).life.polled != s.life.polled <==> At(s, t).seen > 0)
              && (At(s, t).seen == 0 ==> Do(s, Go(t)) == s)
              && forall a: Action<T> :: a != Go(t) && a != GiveUp(t) ==>
                   Do(s, a).life == s.life && At(Do(s, a), t) == At(s, t)
  {
    RunIsSafe(Begin<T>(), actions);
    var s := RunThreads(Begin<T>(), actions);
    assert Knows(At(s, t), s.life.queued);
    if At(s, t).Polling? {
      forall a: Action<T> | a != Go(t) && a != GiveUp(t)
        ensures Do(s, a).life == s.life && At(Do(s, a), t) == At(s, t)
      {
        if a.t != t {
          assert !Critical(At(s, a.t));
        }
      }
    }
  }

  // ----- whose events are queued -----

  /** The event this step gets through: the thread leaves the code that queues its event. */
  function Queued<T>(s: State<T>, a: Action<T>): seq<T>
    requires s.life.queued <= |s.life.pushed|
  {
    var pc := At(s, a.t);
    if a.Go? && (pc.Sending? || pc.Resending?) && At(Do(s, a), a.t).Leaving? then [pc.e] else []
  }

  function AllQueued<T>(s: State<T>, actions: seq<Action<T>>): seq<T>
    requires s.life.queued <= |s.life.pushed|
    decreases |actions|
  {
    if actions == [] then [] else Queued(s, actions[0]) + AllQueued(Do(s, actions[0]), actions[1..])
  }

  /** A step pushes exactly the event of the thread that gets through by it, and takes nothing back. */
  lemma StepPushes<T>(s: State<T>, a: Action<T>)
    requires s.life.queued <= |s.life.pushed|
    ensures Do(s, a).life.pushed == s.life.pushed + Queued(s, a)
  {
  }

  /** In every interleaving: what was pushed is the events of the threads that got through, in the order in which
      they did. */
  lemma {:induction false} PushedAreTheEventsBrought<T>(s: State<T>, actions: seq<Action<T>>)
    requires s.life.queued <= |s.life.pushed|
    ensures RunThreads(s, actions).life.pushed == s.life.pushed + AllQueued(s, actions)
    decreases |actions|
  {
    hide Do, Queued;
    if actions != [] {
      StepPushes(s, actions[0]);
      PushedAreTheEventsBrought(Do(s, actions[0]), actions[1..]);
    }
  }

  /** An event is dropped only by a thread that finds 200 queued, and it is the oldest. */
  lemma StepDrops<T>(s: State<T>, a: Action<T>)
    requires s.life.queued <= |s.life.pushed| && Safe(s)
    ensures var z := Do(s, a);
            && z.life.queued <= 200
            && z.life.dropped == s.life.dropped + (if a.Go? && At(s, a.t).Discarding? then [Gone(s.life)] else [])
            && (a.Go? && At(s, a.t).Discarding? ==> s.life.queued == 200)
  {
    hide Increasing;
    if a.Go? {
      assert Knows(At(s, a.t), s.life.queued);
    }
    DoIsSafe(s, a);
  }

  // ----- no call is lost -----

  /** The event thread t is busy queueing. */
  function InHand<T>(pc: Pc<T>): seq<T> {
    if pc.WantPush? || pc.Sending? || pc.Discarding? || pc.Resending? || pc.Failed? then [pc.e] else []
  }

  /** What thread t was called with, and what it got through. */
  function Called<T>(s: State<T>, actions: seq<Action<T>>, t: nat): seq<T>
    requires s.life.queued <= |s.life.pushed|
    decreases |actions|
  {
    if actions == [] then []
    else
      (if actions[0].Push? && actions[0].t == t && At(s, t).Outside? then [actions[0].e] else [])
      + Called(Do(s, actions[0]), actions[1..], t)
  }

  function QueuedBy<T>(s: State<T>, actions: seq<Action<T>>, t: nat): seq<T>
    requires s.life.queued <= |s.life.pushed|
    decreases |actions|
  {
    if actions == [] then []
    else (if actions[0].t == t then Queued(s, actions[0]) else []) + QueuedBy(Do(s, actions[0]), actions[1..], t)
  }

  lemma StepKeepsCalls<T>(s: State<T>, a: Action<T>, t: nat)
    requires Safe(s)
    ensures InHand(At(s, t)) + (if a.Push? && a.t == t && At(s, t).Outside? then [a.e] else [])
         == (if a.t == t then Queued(s, a) else []) + InHand(At(Do(s, a), t))
  {
    hide Accounted;
    assert Knows(At(s, t), s.life.queued);
    if a.t != t {
      OthersStay(s, a);
    }
  }

  lemma Regroup<T>(hand: seq<T>, call: seq<T>, called: seq<T>, got: seq<T>, after: seq<T>, queued: seq<T>, last: seq<T>)
    requires hand + call == got + after && after + called == queued + last
    ensures hand + (call + called) == got + queued + last
  {
    assert hand + (call + called) == hand + call + called;
    assert got + after + called == got + (after + called);
    assert got + (queued + last) == got + queued + last;
  }

  /** In every interleaving, for each thread: the events it was called with are those it got through, in the same
      order, and then the one in hand. So no call loses its event. */
  lemma {:induction false} NoCallIsLost<T>(s: State<T>, actions: seq<Action<T>>, t: nat)
    requires s.life.queued <= |s.life.pushed| && Safe(s)
    ensures InHand(At(s, t)) + Called(s, actions, t)
         == QueuedBy(s, actions, t) + InHand(At(RunThreads(s, actions), t))
    decreases |actions|
  {
    hide Do, Queued, Safe, InHand;
    if actions == [] {
      assert InHand(At(s, t)) + [] == [] + InHand(At(s, t));
    } else {
      var z := Do(s, actions[0]);
      DoIsSafe(s, actions[0]);
      StepKeepsCalls(s, actions[0], t);
      NoCallIsLost(z, actions[1..], t);
      var call := if actions[0].Push? && actions[0].t == t && At(s, t).Outside? then [actions[0].e] else [];
      Regroup(InHand(At(s, t)), call,
              Called(z, actions[1..], t), if actions[0].t == t then Queued(s, actions[0]) else [], InHand(At(z, t)),
              QueuedBy(z, actions[1..], t), InHand(At(RunThreads(z, actions[1..]), t)));
    }
  }

  /** Steps of a thread until its event is queued, or its poll answered, and it has left. */
  function Rank<T>(pc: Pc<T>): nat {
    match pc
    case WantPush(_) => 5
    case Sending(_) => 4
    case Discarding(_) => 3
    case Resending(_) => 2
    case Leaving => 1
    case WantPoll => 3
    case Polling(_) => 2
    case _ => 0
  }

  /** It has to wait: for the mutex, or as a poller for an event or the end of its patience. */
  predicate MustWait<T>(s: State<T>, t: nat) {
    || ((At(s, t).WantPush? || At(s, t).WantPoll?) && !s.holder.Nobody?)
    || (At(s, t).Polling? && s.life.queued == 0)
  }

  /** Each step of a thread that need not wait brings it nearer to its end, and no other thread sets it back; with its
      last step it gives the mutex back. */
  lemma ThreadsAdvance<T>(s: State<T>, a: Action<T>, t: nat)
    requires s.life.queued <= |s.life.pushed| && Safe(s) && Rank(At(s, t)) > 0
    ensures a == Go(t) && !MustWait(s, t) ==> Rank(At(Do(s, a), t)) < Rank(At(s, t))
    ensures a.t != t ==> At(Do(s, a), t) == At(s, t)
    ensures a == GiveUp(t) && At(s, t).Polling? && s.life.queued == 0 ==> At(Do(s, a), t).Leaving?
    ensures a == Go(t) && At(s, t).Leaving? ==> Do(s, a).holder.Nobody? && At(Do(s, a), t).Outside?
  {
    hide Accounted;
    assert Knows(At(s, t), s.life.queued);
    if a.t != t {
      OthersStay(s, a);
    }
  }

  /** A poll made while nobody is inside returns, after three steps, the oldest event neither polled nor dropped, if
      there is one; otherwise it waits. */
  lemma PollAtRest<T>(s: State<T>, t: nat)
    requires s.life.queued <= |s.life.pushed| && Safe(s) && At(s, t).Outside? && s.holder.Nobody?
    ensures var z := Do(Do(Do(Do(s, Poll(t)), Go(t)), Go(t)), Go(t));
            if |s.life.polled| + |s.life.dropped| < |s.life.pushed| then
              && At(z, t).Outside? && z.holder.Nobody? && z.life.pushed == s.life.pushed
              && z.life.polled == s.life.polled + [|s.life.polled| + |s.life.dropped|]
            else At(z, t).Polling? && z.life == s.life
  {
    hide Increasing;
  }
}
