/** The HAL's memory quota under concurrent use: hal_malloc and hal_free of any number of tasks, interleaved
    between any two statements, the counter read and written back in separate steps. */
module Quota {

  const MAX_SINGLE_ALLOC: nat := 2048
  const MAX_TOTAL_ALLOC: nat := 32768
  /** platform_malloc refuses more than this. */
  const MAX_MEMORY_SIZE: nat := 1024
  const SIZE_T: nat := 0x1_0000_0000

  /** Where a task is. Want*: waiting for the mutex. Hold*: inside. Freed blocks are gone before the mutex is
      even asked for. */
  datatype Pc =
    | Outside
    | WantAlloc(n: nat) | HoldAlloc(n: nat) | Checked(n: nat) | Got(n: nat) | Adding(n: nat, read: nat)
    | WantSub(n: nat) | HoldSub(n: nat) | Subtracting(n: nat, read: nat)
    | Unlocking

  datatype Holder = Nobody | Task(id: nat)

  /** live: blocks from hal_malloc and their sizes. sent: bytes of TX blocks released by platform_free.
      forgotten: bytes of frees that gave up waiting for the mutex. */
  datatype State = State(counter: nat, holder: Holder, pcs: map<nat, Pc>, live: map<nat, nat>, next: nat,
      sent: nat, forgotten: nat)

  /** Malloc and Free are calls; Send is hal_send_task (or a full tx queue) releasing a block behind the HAL's
      back; Go is a task's next step; TimeOut the end of its wait for the mutex; NoHeap a failing malloc. */
  datatype Action = Malloc(t: nat, n: nat) | Free(t: nat, id: nat) | Send(id: nat) | Go(t: nat) | TimeOut(t: nat)
      | NoHeap(t: nat)

  function At(s: State, t: nat): Pc {
    if t in s.pcs then s.pcs[t] else Outside
  }

  function Move(s: State, t: nat, pc: Pc): State {
    s.(pcs := s.pcs[t := pc])
  }

  /** Subtraction on size_t. */
  function Minus(a: nat, b: nat): nat {
    if a >= b then a - b else SIZE_T - (b - a) % SIZE_T
  }

  function Advance(s: State, t: nat): State {
    match At(s, t)
    case Outside => s
    case WantAlloc(n) => if s.holder.Nobody? then Move(s, t, HoldAlloc(n)).(holder := Task(t)) else s
    case HoldAlloc(n) => Move(s, t, if s.counter + n > MAX_TOTAL_ALLOC then Unlocking else Checked(n))
    case Checked(n) => Move(s, t, if n > MAX_MEMORY_SIZE then Unlocking else Got(n))
    case Got(n) => Move(s, t, Adding(n, s.counter))
    case Adding(n, read) => Move(s, t, Unlocking).(counter := read + n, live := s.live[s.next := n], next := s.next + 1)
    case WantSub(n) => if s.holder.Nobody? then Move(s, t, HoldSub(n)).(holder := Task(t)) else s
    case HoldSub(n) => Move(s, t, Subtracting(n, s.counter))
    case Subtracting(n, read) => Move(s, t, Unlocking).(counter := Minus(read, n))
    case Unlocking => Move(s, t, Outside).(holder := Nobody)
  }

  function Do(s: State, a: Action): State {
    match a
    case Malloc(t, n) => if At(s, t).Outside? && n <= MAX_SINGLE_ALLOC then Move(s, t, WantAlloc(n)) else s
    case Free(t, id) =>
      if At(s, t).Outside? && id in s.live then Move(s, t, WantSub(s.live[id])).(live := s.live - {id}) else s
    case Send(id) => if id in s.live then s.(live := s.live - {id}, sent := s.sent + s.live[id]) else s
    case Go(t) => Advance(s, t)
    case TimeOut(t) =>
      if At(s, t).WantAlloc? then Move(s, t, Outside)
      else if At(s, t).WantSub? then Move(s, t, Outside).(forgotten := s.forgotten + At(s, t).n)
      else s
    case NoHeap(t) => if At(s, t).Checked? then Move(s, t, Unlocking) else s
  }

  function Run(s: State, actions: seq<Action>): State
    decreases |actions|
  {
    if actions == [] then s else Run(Do(s, actions[0]), actions[1..])
  }

  const BOOT := State(0, Nobody, map[], map[], 0, 0, 0)

  // ----- sums over maps -----

  ghost function Total(m: map<nat, nat>): nat
    decreases |m|
  {
    if m == map[] then 0
    else
      var k :| k in m;
      m[k] + Total(m - {k})
  }

  lemma {:induction false} TotalWithout(m: map<nat, nat>, k: nat)
    requires k in m
    ensures Total(m) == m[k] + Total(m - {k})
    decreases |m|
  {
    var j :| j in m && Total(m) == m[j] + Total(m - {j});
    if j != k {
      TotalWithout(m - {j}, k);
      TotalWithout(m - {k}, j);
      assert m - {j} - {k} == m - {k} - {j};
    }
  }

  lemma TotalSet(m: map<nat, nat>, k: nat, v: nat)
    ensures Total(m[k := v]) == v + Total(m) - if k in m then m[k] else 0
  {
    TotalWithout(m[k := v], k);
    if k in m {
      TotalWithout(m, k);
      assert m[k := v] - {k} == m - {k};
    } else {
      assert m[k := v] - {k} == m;
    }
  }

  /** What a task in the middle of hal_free still has to subtract. */
  function Debt(pc: Pc): nat {
    if pc.WantSub? || pc.HoldSub? || pc.Subtracting? then pc.n else 0
  }

  ghost function Debts(pcs: map<nat, Pc>): map<nat, nat> {
    map t | t in pcs :: Debt(pcs[t])
  }

  // ----- the invariant -----

  predicate Inside(pc: Pc) {
    !pc.Outside? && !pc.WantAlloc? && !pc.WantSub?
  }

  predicate Knows(pc: Pc, counter: nat) {
    match pc
    case Checked(n) => counter + n <= MAX_TOTAL_ALLOC
    case Got(n) => counter + n <= MAX_TOTAL_ALLOC
    case Adding(n, read) => read == counter && counter + n <= MAX_TOTAL_ALLOC
    case Subtracting(n, read) => read == counter
    case _ => true
  }

  ghost predicate Exclusive(s: State) {
    && (forall t :: Inside(At(s, t)) <==> s.holder == Task(t))
    && (forall t :: Knows(At(s, t), s.counter))
  }

  ghost predicate Balanced(s: State) {
    && s.counter == Total(s.live) + Total(Debts(s.pcs)) + s.sent + s.forgotten
    && s.counter <= MAX_TOTAL_ALLOC
    && forall id :: id in s.live ==> id < s.next
  }

  ghost predicate Safe(s: State) {
    Exclusive(s) && Balanced(s)
  }

  lemma MoveDebt(s: State, t: nat, pc: Pc)
    ensures Total(Debts(s.pcs[t := pc])) == Total(Debts(s.pcs)) + Debt(pc) - Debt(At(s, t))
  {
    assert Debts(s.pcs[t := pc]) == Debts(s.pcs)[t := Debt(pc)];
    TotalSet(Debts(s.pcs), t, Debt(pc));
  }

  lemma DebtIsCovered(s: State, t: nat)
    requires Balanced(s)
    ensures Debt(At(s, t)) <= s.counter
  {
    if t in s.pcs {
      TotalWithout(Debts(s.pcs), t);
    }
  }

  /** From s to z only task t acted: it took, held or gave back the mutex, and touched the counter only inside. */
  ghost predicate ActedAlone(s: State, z: State, t: nat) {
    && (forall u :: u != t ==> At(z, u) == At(s, u))
    && (z.counter == s.counter || Inside(At(s, t)))
    && (|| z.holder == s.holder
        || (s.holder == Nobody && z.holder == Task(t)) || (s.holder == Task(t) && z.holder == Nobody))
    && (Inside(At(z, t)) <==> z.holder == Task(t))
    && Knows(At(z, t), z.counter)
  }

  lemma ActingAloneKeepsExclusive(s: State, z: State, t: nat)
    requires Exclusive(s) && ActedAlone(s, z, t)
    ensures Exclusive(z)
  {
    forall u ensures Inside(At(z, u)) <==> z.holder == Task(u) {
    }
    forall u ensures Knows(At(z, u), z.counter) {
      if u != t && z.counter != s.counter {
        assert !Inside(At(s, u));
      }
    }
  }

  lemma OthersStay(s: State, a: Action)
    requires !a.Send?
    ensures forall u :: u != a.t ==> At(Do(s, a), u) == At(s, u)
  {
  }

  /** Only the task inside the mutex touches the counter. */
  lemma DoActsAlone(s: State, a: Action)
    requires Exclusive(s) && !a.Send?
    ensures ActedAlone(s, Do(s, a), a.t)
  {
    OthersStay(s, a);
    var t, z := a.t, Do(s, a);
    assert Inside(At(s, t)) <==> s.holder == Task(t);
    assert Knows(At(s, t), s.counter);
    assert At(z, t) == if t in z.pcs then z.pcs[t] else Outside;
  }

  lemma DoKeepsExclusive(s: State, a: Action)
    requires Exclusive(s)
    ensures Exclusive(Do(s, a))
  {
    if a.Send? {
      forall u ensures At(Do(s, a), u) == At(s, u) {
      }
    } else {
      hide Exclusive, Do, ActedAlone;
      DoActsAlone(s, a);
      ActingAloneKeepsExclusive(s, Do(s, a), a.t);
    }
  }

  lemma AdvanceKeepsBalance(s: State, t: nat)
    requires Safe(s)
    ensures Balanced(Advance(s, t))
  {
    hide Debts, Total;
    var pc := At(s, t);
    MoveDebt(s, t, At(Advance(s, t), t));
    assert Knows(pc, s.counter);
    if pc.Adding? {
      TotalSet(s.live, s.next, pc.n);
    } else if pc.Subtracting? {
      DebtIsCovered(s, t);
    }
  }

  lemma DoKeepsBalance(s: State, a: Action)
    requires Safe(s)
    ensures Balanced(Do(s, a))
  {
    if a.Go? {
      AdvanceKeepsBalance(s, a.t);
    } else if a.Send? {
      if a.id in s.live {
        TotalWithout(s.live, a.id);
      }
    } else {
      MoveDebt(s, a.t, At(Do(s, a), a.t));
      if a.Free? && a.id in s.live {
        TotalWithout(s.live, a.id);
      }
    }
  }

  lemma {:induction false} RunIsSafe(s: State, actions: seq<Action>)
    requires Safe(s)
    ensures Safe(Run(s, actions))
    decreases |actions|
  {
    if actions != [] {
      DoKeepsExclusive(s, actions[0]);
      DoKeepsBalance(s, actions[0]);
      RunIsSafe(Do(s, actions[0]), actions[1..]);
    }
  }

  lemma BootIsSafe()
    ensures Safe(BOOT)
  {
    assert Debts(BOOT.pcs) == map[];
    forall t ensures At(BOOT, t) == Outside {
    }
  }

  /** Safe, spelt out in the source's terms: the counter is the bytes of live blocks plus the bytes of frees in
      progress plus what TX releases and timed-out frees never subtract; it stays within the quota; and no
      subtraction wraps. */
  ghost predicate Exact(s: State) {
    && s.counter == Total(s.live) + Total(Debts(s.pcs)) + s.sent + s.forgotten
    && Total(s.live) <= s.counter <= MAX_TOTAL_ALLOC
    && forall t :: At(s, t).Subtracting? ==> At(s, t).n <= At(s, t).read
  }

  lemma SafeIsExact(s: State)
    requires Safe(s)
    ensures Exact(s)
  {
    forall t | At(s, t).Subtracting? ensures At(s, t).n <= At(s, t).read {
      DebtIsCovered(s, t);
      assert Knows(At(s, t), s.counter);
    }
  }

  /** In every interleaving, after every step, the counter is exact. */
  lemma QuotaIsExact(actions: seq<Action>)
    ensures Exact(Run(BOOT, actions))
  {
    hide *;
    BootIsSafe();
    RunIsSafe(BOOT, actions);
    SafeIsExact(Run(BOOT, actions));
  }

  /** Bytes the counter can never get back. */
  function Spent(s: State): nat {
    s.sent + s.forgotten
  }

  lemma {:induction false} SpentNeverShrinks(s: State, actions: seq<Action>)
    ensures Spent(s) <= Spent(Run(s, actions))
    decreases |actions|
  {
    if actions != [] {
      SpentNeverShrinks(Do(s, actions[0]), actions[1..]);
    }
  }

  /** Task t is about to be granted, or is being granted, n bytes. */
  predicate Granting(s: State, t: nat, n: nat) {
    At(s, t) == Checked(n) || At(s, t) == Got(n) || (At(s, t).Adding? && At(s, t).n == n)
  }

  lemma SafeGrantsFit(s: State, t: nat, n: nat)
    requires Safe(s) && Granting(s, t, n)
    ensures Spent(s) + n <= MAX_TOTAL_ALLOC
  {
    assert Knows(At(s, t), s.counter);
  }

  /** In every state a run can reach (each is Safe): once the TX blocks released behind the counter's back and the
      frees that timed out add up to more than the quota less n, no request for n bytes is ever granted again,
      however the run goes on. */
  lemma SpentQuotaStaysSpent(s: State, more: seq<Action>, t: nat, n: nat)
    requires Safe(s) && Spent(s) + n > MAX_TOTAL_ALLOC
    ensures !Granting(Run(s, more), t, n)
  {
    hide *;
    SpentNeverShrinks(s, more);
    RunIsSafe(s, more);
    if Granting(Run(s, more), t, n) {
      SafeGrantsFit(Run(s, more), t, n);
    }
  }

  // ----- what is granted -----

  /** Actions of other tasks, and TX releases. */
  predicate Others(actions: seq<Action>, t: nat) {
    forall a :: a in actions ==> a.Send? || a.t != t
  }

  /** While task t holds the mutex no one else touches the counter, the next identity or t's place in the code. */
  lemma OthersWait(s: State, a: Action, t: nat)
    requires Safe(s) && Inside(At(s, t)) && (a.Send? || a.t != t)
    ensures var z := Do(s, a);
            At(z, t) == At(s, t) && z.counter == s.counter && z.next == s.next && z.holder == s.holder
  {
    if !a.Send? {
      assert !Inside(At(s, a.t));
    }
  }

  lemma {:induction false} OthersKeepWaiting(s: State, actions: seq<Action>, t: nat)
    requires Safe(s) && Inside(At(s, t)) && Others(actions, t)
    ensures var z := Run(s, actions);
            && Safe(z) && At(z, t) == At(s, t) && z.counter == s.counter && z.next == s.next && z.holder == s.holder
    decreases |actions|
  {
    hide Do, Safe, Inside;
    if actions != [] {
      OthersWait(s, actions[0], t);
      DoIsSafe(s, actions[0]);
      OthersKeepWaiting(Do(s, actions[0]), actions[1..], t);
    }
  }

  lemma DoIsSafe(s: State, a: Action)
    requires Safe(s)
    ensures Safe(Do(s, a))
  {
    DoKeepsExclusive(s, a);
    DoKeepsBalance(s, a);
  }

  /** One step of t, then the others do as they like. */
  function Turn(s: State, t: nat, others: seq<Action>): State {
    Run(Advance(s, t), others)
  }

  /** A request that has the mutex, with the counter and the next identity as it found them. */
  predicate Underway(z: State, t: nat, pc: Pc, s: State) {
    At(z, t) == pc && z.counter == s.counter && z.next == s.next && z.holder == Task(t)
  }

  lemma TurnKeeps(z: State, t: nat, others: seq<Action>, pc: Pc, s: State)
    requires Safe(z) && Others(others, t) && Underway(Advance(z, t), t, pc, s) && Inside(pc)
    ensures Safe(Turn(z, t, others)) && Underway(Turn(z, t, others), t, pc, s)
  {
    hide Safe, Advance, Run;
    DoIsSafe(z, Go(t));
    OthersKeepWaiting(Advance(z, t), others, t);
  }

  /** A request for n bytes, once it has the mutex and if the heap has them, is granted if and only if counter and n
      together stay within 32768 and n is at most 1024, whatever the others do between its steps: after its fourth
      step there is a block of n bytes more and the counter has grown by n; a refused one is on its way out after one
      step or two and has changed nothing. */
  lemma GrantedIffItFits(s: State, t: nat, n: nat, first: seq<Action>, second: seq<Action>, third: seq<Action>)
    requires Safe(s) && At(s, t) == HoldAlloc(n) && Others(first, t) && Others(second, t) && Others(third, t)
    ensures var s1 := Turn(s, t, first);
            var s2 := Turn(s1, t, second);
            if s.counter + n > 32768 then Underway(s1, t, Unlocking, s)
            else if n > 1024 then Underway(s2, t, Unlocking, s)
            else
              var before := Turn(s2, t, third);
              var z := Advance(before, t);
              && At(z, t) == Unlocking && s.next !in before.live && z.live == before.live[s.next := n]
              && z.counter == s.counter + n
  {
    var s1 := Turn(s, t, first);
    var s2 := Turn(s1, t, second);
    if s.counter + n > 32768 {
      TurnKeeps(s, t, first, Unlocking, s);
    } else {
      TurnKeeps(s, t, first, Checked(n), s);
      if n > 1024 {
        TurnKeeps(s1, t, second, Unlocking, s);
      } else {
        TurnKeeps(s1, t, second, Got(n), s);
        TurnKeeps(s2, t, third, Adding(n, s.counter), s);
      }
    }
  }

  /** A call begins only within 2048 bytes, and then waits for the mutex; the first to take its step gets it. */
  lemma RequestGetsTheMutex(s: State, t: nat, n: nat)
    requires At(s, t).Outside?
    ensures At(Do(s, Malloc(t, n)), t) == if n <= 2048 then WantAlloc(n) else Outside
    ensures n <= 2048 && s.holder.Nobody? ==> At(Advance(Do(s, Malloc(t, n)), t), t) == HoldAlloc(n)
  {
  }

  // ----- what is given back -----

  /** The bytes a run grants, frees, releases behind the counter's back and gives up subtracting. */
  function GrantedBy(s: State, a: Action): nat {
    if a.Go? && At(s, a.t).Adding? then At(s, a.t).n else 0
  }

  function FreedBy(s: State, a: Action): nat {
    if a.Free? && At(s, a.t).Outside? && a.id in s.live then s.live[a.id] else 0
  }

  function SentBy(s: State, a: Action): nat {
    if a.Send? && a.id in s.live then s.live[a.id] else 0
  }

  function ForgottenBy(s: State, a: Action): nat {
    if a.TimeOut? && At(s, a.t).WantSub? then At(s, a.t).n else 0
  }

  /** Their sums. */
  datatype Flow = Flow(granted: nat, freed: nat, sent: nat, forgotten: nat)

  function Plus(a: Flow, b: Flow): Flow {
    Flow(a.granted + b.granted, a.freed + b.freed, a.sent + b.sent, a.forgotten + b.forgotten)
  }

  function StepFlow(s: State, a: Action): Flow {
    Flow(GrantedBy(s, a), FreedBy(s, a), SentBy(s, a), ForgottenBy(s, a))
  }

  function RunFlow(s: State, actions: seq<Action>): Flow
    decreases |actions|
  {
    if actions == [] then Flow(0, 0, 0, 0) else Plus(StepFlow(s, actions[0]), RunFlow(Do(s, actions[0]), actions[1..]))
  }

  /** From s to z the live bytes changed by what was granted, freed and sent, and nothing else. */
  ghost predicate Flowed(s: State, z: State, f: Flow) {
    && Total(z.live) + f.freed + f.sent == Total(s.live) + f.granted
    && z.sent == s.sent + f.sent && z.forgotten == s.forgotten + f.forgotten
  }

  lemma StepFlows(s: State, a: Action)
    requires Safe(s)
    ensures Flowed(s, Do(s, a), StepFlow(s, a))
  {
    hide Total, Debts;
    if a.Go? && At(s, a.t).Adding? {
      TotalSet(s.live, s.next, At(s, a.t).n);
    } else if (a.Free? || a.Send?) && a.id in s.live {
      TotalWithout(s.live, a.id);
    }
  }

  /** In every interleaving: the bytes granted are the bytes still live, freed or sent; every free of a live block and
      every release of a TX block counts in full. With QuotaIsExact: the counter is what was granted less what was
      freed, plus frees in progress and those that timed out. */
  lemma {:induction false} BytesAreConserved(s: State, actions: seq<Action>)
    requires Safe(s)
    ensures Flowed(s, Run(s, actions), RunFlow(s, actions))
    decreases |actions|
  {
    hide Do, Safe, StepFlow;
    if actions != [] {
      StepFlows(s, actions[0]);
      DoIsSafe(s, actions[0]);
      BytesAreConserved(Do(s, actions[0]), actions[1..]);
    }
  }

  /** Steps of a task to the end of its call. */
  function Rank(pc: Pc): nat {
    match pc
    case Outside => 0
    case WantAlloc(_) => 6
    case HoldAlloc(_) => 5
    case Checked(_) => 4
    case Got(_) => 3
    case Adding(_, _) => 2
    case WantSub(_) => 4
    case HoldSub(_) => 3
    case Subtracting(_, _) => 2
    case Unlocking => 1
  }

  predicate MustWait(s: State, t: nat) {
    (At(s, t).WantAlloc? || At(s, t).WantSub?) && !s.holder.Nobody?
  }

  /** Each step of a task that need not wait for the mutex brings its call nearer to its end, the last gives the mutex
      back, a wait that runs out and a heap that has nothing end it, and no other task sets it back. */
  lemma CallsAdvance(s: State, a: Action, t: nat)
    requires Safe(s) && Rank(At(s, t)) > 0
    ensures a == Go(t) && !MustWait(s, t) ==> Rank(At(Do(s, a), t)) < Rank(At(s, t))
    ensures a == Go(t) && At(s, t).Unlocking? ==> At(Do(s, a), t).Outside? && Do(s, a).holder.Nobody?
    ensures a == TimeOut(t) && (At(s, t).WantAlloc? || At(s, t).WantSub?) ==> At(Do(s, a), t).Outside?
    ensures a == NoHeap(t) && At(s, t).Checked? ==>
              At(Do(s, a), t).Unlocking? && Do(s, a).live == s.live && Do(s, a).counter == s.counter
    ensures a.Send? || a.t != t ==> At(Do(s, a), t) == At(s, t)
  {
    hide Total, Debts;
  }

  /** A free that gets the mutex takes exactly its bytes off the counter in its next two steps, whatever the others do
      in between. */
  lemma FreeIsSubtracted(s: State, t: nat, n: nat, between: seq<Action>)
    requires Safe(s) && At(s, t) == HoldSub(n) && Others(between, t)
    ensures var z := Advance(Turn(s, t, between), t);
            At(z, t) == Unlocking && z.counter + n == s.counter
  {
    TurnKeeps(s, t, between, Subtracting(n, s.counter), s);
    DebtIsCovered(s, t);
  }
}
