/** The status value a parse call returns, and what it tells the caller. */
module CallStatus {
  import opened Protocol
  import opened ParserMachine
  import opened ParserSafety
  import opened Scanner
  import opened Chunking
  import opened Delivery

  datatype FrameStatus = FrameOk | NoFrames | QueueFull | MemoryProblem | UnfinishedFrame

  /** The locals status_of_operation and finished_frames of process_data. */
  datatype Tally = Tally(status: FrameStatus, finished: nat)

  const FRESH := Tally(NoFrames, 0)

  /** How one iteration from c to r updates them. */
  function Tick(a: Answers, c: Config, r: Config, t: Tally): Tally {
    if |r.events| > |c.events| then
      if r.events[|c.events|].Reject? then t
      else if !a.frame then t.(status := MemoryProblem)
      else if !a.save then t.(status := QueueFull)
      else Tally(FrameOk, t.finished + 1)
    else if c.parser.built == [] && r.parser.built != [] then
      if t.finished == 0 then t.(status := UnfinishedFrame) else t
    else if |c.parser.built| == 5 && r.parser.built == [] then t.(status := MemoryProblem)
    else t
  }

  function Tallied(env: nat -> Answers, s: seq<byte>, lo: nat, c: Config, t: Tally): Tally
    requires lo <= c.pos <= |s|
    decreases !c.crashed, |s| - Start(c), |s| - c.pos
  {
    if c.crashed || c.pos == |s| then t
    else
      var r := Step(AsWritten, env(c.steps), s, lo, c);
      Tallied(env, s, lo, r, Tick(env(c.steps), c, r, t))
  }

  /** The value returned once the loop has ended in configuration r. */
  function Reported(t: Tally, r: Config): FrameStatus {
    if t.finished == 0 && r.parser.built == [] then NoFrames else t.status
  }

  /** The frames delivered between two points of a run. */
  function NewEvents(from: Config, to: Config): seq<Event> {
    if |from.events| <= |to.events| then to.events[|from.events|..] else []
  }

  function NewFrames(from: Config, to: Config): seq<seq<byte>> {
    Delivered(NewEvents(from, to))
  }

  /** There is a good frame among these events, and this is what became of the last one. */
  predicate LastFate(events: seq<Event>, fate: Fate) {
    if events == [] then false
    else if events[|events| - 1].Accept? then events[|events| - 1].fate == fate
    else LastFate(events[..|events| - 1], fate)
  }

  lemma NewEventsAdd(a: Config, b: Config, c: Config)
    requires a.events <= b.events <= c.events
    ensures NewEvents(a, c) == NewEvents(a, b) + NewEvents(b, c)
  {
  }

  lemma NewFramesAdd(a: Config, b: Config, c: Config)
    requires a.events <= b.events <= c.events
    ensures NewFrames(a, c) == NewFrames(a, b) + NewFrames(b, c)
  {
    hide NewEvents, Delivered;
    NewEventsAdd(a, b, c);
    DeliveredSplit(NewEvents(a, b), NewEvents(b, c));
  }

  lemma NothingNew(c: Config)
    ensures NewEvents(c, c) == [] && NewFrames(c, c) == []
  {
  }

  /** What the tally says while the call that began at lo is in configuration c, having delivered n frames. */
  ghost predicate Telling(lo: nat, c: Config, t: Tally, n: nat) {
    && t.finished == n
    && (n > 0 ==> t.status in {FrameOk, QueueFull, MemoryProblem})
    && (Start(c) < lo ==> t == FRESH)
    && (n == 0 && c.parser.built != [] && Start(c) >= lo ==> t.status == UnfinishedFrame)
  }

  /** One iteration adds at most one event; a delivered frame is counted. */
  lemma StepAdds(a: Answers, s: seq<byte>, lo: nat, c: Config)
    requires lo <= c.pos < |s| && Sound(s, c)
    ensures var r := Step(AsWritten, a, s, lo, c);
            && c.events <= r.events && |NewEvents(c, r)| <= 1
            && (|NewFrames(c, r)| ==
                if NewEvents(c, r) != [] && NewEvents(c, r)[0].Accept? && a.frame && a.save then 1 else 0)
            && (NewEvents(c, r) != [] ==>
                  && r.parser.built == []
                  && (NewEvents(c, r)[0].Accept? ==> NewEvents(c, r)[0].fate == FateOf(a)))
  {
    var r := Step(AsWritten, a, s, lo, c);
    if Completes(s, c) {
      StepDecides(AsWritten, a, s, lo, c);
      hide WellFormed, LenField, Body, Genuine, Ordered;
      var e := Verdict(a, Start(c), s[Start(c)..c.pos + 1]);
      assert NewEvents(c, r) == [e];
      assert Delivered([e]) == Handed(e);
    } else {
      StepMoves(AsWritten, a, s, lo, c);
      assert NewEvents(c, r) == [];
    }
  }

  /** The start of the candidate never moves back, and once it has moved it is in the current chunk. */
  lemma StepMovesUp(mode: Rewind, a: Answers, s: seq<byte>, lo: nat, c: Config)
    requires lo <= c.pos < |s|
    ensures var r := Step(mode, a, s, lo, c);
            !r.crashed ==> Start(c) <= Start(r) && (Start(r) == Start(c) || Start(r) >= lo)
  {
    hide WellFormed, LenField;
  }

  lemma TickTells(a: Answers, s: seq<byte>, lo: nat, c: Config, t: Tally, n: nat)
    requires lo <= c.pos < |s| && Sound(s, c) && Telling(lo, c, t, n)
    ensures var r := Step(AsWritten, a, s, lo, c);
            !r.crashed ==> Telling(lo, r, Tick(a, c, r, t), n + |NewFrames(c, r)|)
  {
    StepAdds(a, s, lo, c);
    StepMovesUp(AsWritten, a, s, lo, c);
    hide Sound, Step, NewFrames, Delivered;
  }

  lemma {:induction false} DrainTells(env: nat -> Answers, s: seq<byte>, lo: nat, c: Config, t: Tally, n: nat)
    requires lo <= c.pos <= |s| && Sound(s, c) && !c.crashed && Telling(lo, c, t, n)
    ensures var r := Drain(AsWritten, env, s, lo, c);
            && c.events <= r.events
            && (!r.crashed ==> Telling(lo, r, Tallied(env, s, lo, c, t), n + |NewFrames(c, r)|))
    decreases !c.crashed, |s| - Start(c), |s| - c.pos
  {
    hide Step, Sound, Tick, Telling, NewFrames, NewEvents;
    DrainGrows(AsWritten, env, s, lo, c);
    if c.pos == |s| {
      NothingNew(c);
    } else {
      var (a, m) := (env(c.steps), Step(AsWritten, env(c.steps), s, lo, c));
      StepAdds(a, s, lo, c);
      StepIsSound(AsWritten, a, s, lo, c);
      TickTells(a, s, lo, c, t, n);
      if !m.crashed {
        DrainTells(env, s, lo, m, Tick(a, c, m, t), n + |NewFrames(c, m)|);
        NewFramesAdd(c, m, Drain(AsWritten, env, s, lo, c));
      }
    }
  }

  /** Whatever was refused, the status of process_data tells this: one of FrameOk, QueueFull and MemoryProblem if it
      delivered a frame; otherwise UnfinishedFrame if it ends inside a candidate it began itself; otherwise NoFrames.
      So a full queue, or a lack of memory met in the loop, is never told with nothing delivered. (A whole parse call
      tells MemoryProblem with nothing delivered exactly if the chunk did not reach the loop: Core.ParseData.) */
  lemma StatusMeaning(env: nat -> Answers, s: seq<byte>, chunk: seq<byte>, c: Config)
    requires c.pos == |s| && Sound(s, c) && !c.crashed && !Drain(AsWritten, env, s + chunk, |s|, c).crashed
    ensures var r := Drain(AsWritten, env, s + chunk, |s|, c);
            var status := Reported(Tallied(env, s + chunk, |s|, c, FRESH), r);
            if NewFrames(c, r) != [] then status in {FrameOk, QueueFull, MemoryProblem}
            else status == if r.parser.built != [] && Start(r) >= |s| then UnfinishedFrame else NoFrames
  {
    SoundExtends(s, chunk, c);
    hide Sound, Tallied, NewFrames, Drain;
    DrainTells(env, s + chunk, |s|, c, FRESH, 0);
  }

  lemma {:induction false} NothingTakenNothingNew(env: nat -> Answers, s: seq<byte>, lo: nat, c: Config)
    requires lo <= c.pos <= |s| && Sound(s, c) && forall k :: !env(k).save
    ensures NewFrames(c, Drain(AsWritten, env, s, lo, c)) == []
    decreases !c.crashed, |s| - Start(c), |s| - c.pos
  {
    NothingNew(c);
    if !c.crashed && c.pos < |s| {
      var (a, m) := (env(c.steps), Step(AsWritten, env(c.steps), s, lo, c));
      StepAdds(a, s, lo, c);
      StepIsSound(AsWritten, a, s, lo, c);
      hide Step, Sound, NewFrames, NewEvents;
      DrainGrows(AsWritten, env, s, lo, m);
      NothingTakenNothingNew(env, s, lo, m);
      NewFramesAdd(c, m, Drain(AsWritten, env, s, lo, m));
    }
  }

  /** While the frame queue stays full no call ever tells QueueFull, whatever good frames it meets. This is about the
      core's status alone: what becomes of the refused blocks is the HAL's business. */
  lemma FullQueueIsNeverTold(env: nat -> Answers, s: seq<byte>, chunk: seq<byte>, c: Config)
    requires c.pos == |s| && Sound(s, c) && !c.crashed && !Drain(AsWritten, env, s + chunk, |s|, c).crashed
    requires forall k :: !env(k).save
    ensures var r := Drain(AsWritten, env, s + chunk, |s|, c);
            Reported(Tallied(env, s + chunk, |s|, c, FRESH), r) in {UnfinishedFrame, NoFrames}
  {
    SoundExtends(s, chunk, c);
    hide Sound, Tallied, NewFrames, Drain, Reported;
    NothingTakenNothingNew(env, s + chunk, |s|, c);
    StatusMeaning(env, s, chunk, c);
  }

  // ----- which of the three -----

  /** Growing never fails: refusals concern frames only. */
  ghost predicate Roomy(env: nat -> Answers) {
    forall k :: env(k).grow
  }

  lemma LastFateAdd(events: seq<Event>, more: seq<Event>, fate: Fate)
    requires |more| <= 1
    ensures LastFate(events + more, fate) ==
            if more != [] && more[0].Accept? then more[0].fate == fate else LastFate(events, fate)
  {
    if more == [] {
      assert events + more == events;
    } else {
      assert (events + more)[..|events|] == events;
    }
  }

  ghost predicate Tells(status: FrameStatus, events: seq<Event>) {
    && (status == FrameOk <==> LastFate(events, Taken))
    && (status == QueueFull <==> LastFate(events, NoRoom))
    && (status == MemoryProblem <==> LastFate(events, NoMemory))
  }

  ghost predicate Last(t: Tally, events: seq<Event>) {
    t.finished > 0 ==> Tells(t.status, events)
  }

  lemma TickKeepsLast(a: Answers, s: seq<byte>, lo: nat, c0: Config, c: Config, t: Tally)
    requires lo <= c.pos < |s| && Sound(s, c) && a.grow && c0.events <= c.events && Last(t, NewEvents(c0, c))
    ensures var r := Step(AsWritten, a, s, lo, c);
            Last(Tick(a, c, r, t), NewEvents(c0, r))
  {
    hide Sound, Step, NewFrames, LastFate;
    var r := Step(AsWritten, a, s, lo, c);
    StepAdds(a, s, lo, c);
    NewEventsAdd(c0, c, r);
    LastFateAdd(NewEvents(c0, c), NewEvents(c, r), Taken);
    LastFateAdd(NewEvents(c0, c), NewEvents(c, r), NoRoom);
    LastFateAdd(NewEvents(c0, c), NewEvents(c, r), NoMemory);
    if |c.parser.built| == 5 {
      GrowingKeeps(a, s, lo, c);
    }
  }

  lemma GrowingKeeps(a: Answers, s: seq<byte>, lo: nat, c: Config)
    requires lo <= c.pos < |s| && Sound(s, c) && a.grow && |c.parser.built| == 5
    ensures Step(AsWritten, a, s, lo, c).parser.built != []
  {
  }

  lemma {:induction false} DrainKeepsLast(env: nat -> Answers, s: seq<byte>, lo: nat, c0: Config, c: Config, t: Tally)
    requires lo <= c.pos <= |s| && Sound(s, c) && !c.crashed && Roomy(env)
    requires c0.events <= c.events && Last(t, NewEvents(c0, c))
    ensures var r := Drain(AsWritten, env, s, lo, c);
            !r.crashed ==> Last(Tallied(env, s, lo, c, t), NewEvents(c0, r))
    decreases !c.crashed, |s| - Start(c), |s| - c.pos
  {
    if c.pos < |s| {
      var (a, m) := (env(c.steps), Step(AsWritten, env(c.steps), s, lo, c));
      StepAdds(a, s, lo, c);
      StepIsSound(AsWritten, a, s, lo, c);
      TickKeepsLast(a, s, lo, c0, c, t);
      hide Step, Sound, Tick, Last, NewEvents, NewFrames;
      if !m.crashed {
        DrainKeepsLast(env, s, lo, c0, m, Tick(a, c, m, t));
      }
    }
  }

  /** A call that delivered a frame tells what became of the last good frame it met: FrameOk exactly if that frame
      was put into the queue (the documentation promises it for any frame put there), QueueFull exactly if the queue
      refused it, MemoryProblem exactly if there was no memory for it. */
  lemma StatusTellsLastFate(env: nat -> Answers, s: seq<byte>, chunk: seq<byte>, c: Config)
    requires c.pos == |s| && Sound(s, c) && !c.crashed && Roomy(env)
    requires !Drain(AsWritten, env, s + chunk, |s|, c).crashed
    ensures var r := Drain(AsWritten, env, s + chunk, |s|, c);
            var status := Reported(Tallied(env, s + chunk, |s|, c, FRESH), r);
            NewFrames(c, r) != [] ==> Tells(status, NewEvents(c, r))
  {
    SoundExtends(s, chunk, c);
    NothingNew(c);
    hide Sound, Tallied, NewFrames, Drain, Tells, NewEvents;
    DrainTells(env, s + chunk, |s|, c, FRESH, 0);
    DrainKeepsLast(env, s + chunk, |s|, c, c, FRESH);
  }

  // ----- memory refused for growing as well -----

  /** This iteration needs a larger buffer and does not get it. */
  predicate RefusesGrowth(a: Answers, s: seq<byte>, c: Config) {
    && c.pos < |s| && |c.parser.built| == 5 && !a.grow
    && LenField(c.parser.built + [s[c.pos]]) + 9 > c.parser.size
  }

  /** What this iteration has to report: the fate of a good frame, or a lack of memory for growing. */
  ghost function Notable(a: Answers, s: seq<byte>, c: Config): seq<Fate> {
    if Completes(s, c) && Start(c) >= 0 && WellFormed(s[Start(c)..c.pos + 1]) then [FateOf(a)]
    else if RefusesGrowth(a, s, c) then [NoMemory]
    else []
  }

  ghost function Notables(env: nat -> Answers, s: seq<byte>, lo: nat, c: Config): seq<Fate>
    requires lo <= c.pos <= |s|
    decreases !c.crashed, |s| - Start(c), |s| - c.pos
  {
    if c.crashed || c.pos == |s| then []
    else Notable(env(c.steps), s, c) + Notables(env, s, lo, Step(AsWritten, env(c.steps), s, lo, c))
  }

  function Told(fate: Fate): FrameStatus {
    match fate
    case Taken => FrameOk
    case NoRoom => QueueFull
    case NoMemory => MemoryProblem
  }

  /** Once a frame was delivered, the status tells the last thing there was to report. */
  ghost predicate TellsLast(t: Tally, notes: seq<Fate>) {
    t.finished > 0 ==> notes != [] && t.status == Told(notes[|notes| - 1])
  }

  lemma DecisionTellsLast(a: Answers, s: seq<byte>, lo: nat, c: Config, t: Tally, notes: seq<Fate>)
    requires lo <= c.pos < |s| && Completes(s, c) && TellsLast(t, notes)
    ensures TellsLast(Tick(a, c, Step(AsWritten, a, s, lo, c), t), notes + Notable(a, s, c))
  {
    hide Step, WellFormed, LenField, Genuine, Ordered;
    StepDecides(AsWritten, a, s, lo, c);
    var r := Step(AsWritten, a, s, lo, c);
    assert r.events[|c.events|] == Verdict(a, Start(c), s[Start(c)..c.pos + 1]);
  }

  lemma MoveTellsLast(a: Answers, s: seq<byte>, lo: nat, c: Config, t: Tally, notes: seq<Fate>)
    requires lo <= c.pos < |s| && Sound(s, c) && !Completes(s, c) && TellsLast(t, notes)
    ensures TellsLast(Tick(a, c, Step(AsWritten, a, s, lo, c), t), notes + Notable(a, s, c))
  {
    StepMoves(AsWritten, a, s, lo, c);
    if |c.parser.built| == 5 {
      OnlyRefusalEmpties(a, s, lo, c);
    }
    hide Sound, Step, Completes, WellFormed, LenField;
    assert notes + [] == notes;
  }

  lemma OnlyRefusalEmpties(a: Answers, s: seq<byte>, lo: nat, c: Config)
    requires lo <= c.pos < |s| && Sound(s, c) && |c.parser.built| == 5
    ensures Step(AsWritten, a, s, lo, c).parser.built == [] <==> RefusesGrowth(a, s, c)
  {
    hide Genuine, Ordered, WellFormed;
  }

  lemma {:induction false} DrainTellsLast(env: nat -> Answers, s: seq<byte>, lo: nat, c: Config, t: Tally,
                                          notes: seq<Fate>)
    requires lo <= c.pos <= |s| && Sound(s, c) && TellsLast(t, notes)
    ensures TellsLast(Tallied(env, s, lo, c, t), notes + Notables(env, s, lo, c))
    decreases !c.crashed, |s| - Start(c), |s| - c.pos
  {
    hide Sound, Step, Tick, TellsLast, Notable, Completes;
    if c.crashed || c.pos == |s| {
      assert notes + [] == notes;
    } else {
      var a := env(c.steps);
      var m := Step(AsWritten, a, s, lo, c);
      StepIsSound(AsWritten, a, s, lo, c);
      if Completes(s, c) {
        DecisionTellsLast(a, s, lo, c, t, notes);
      } else {
        MoveTellsLast(a, s, lo, c, t, notes);
      }
      DrainTellsLast(env, s, lo, m, Tick(a, c, m, t), notes + Notable(a, s, c));
      assert notes + Notable(a, s, c) + Notables(env, s, lo, m) == notes + (Notable(a, s, c) + Notables(env, s, lo, m));
    }
  }

  lemma DeliveryCounts(env: nat -> Answers, s: seq<byte>, lo: nat, c: Config)
    requires lo == c.pos <= |s| && Sound(s, c) && !c.crashed
    requires !Drain(AsWritten, env, s, lo, c).crashed
    ensures var (t, r) := (Tallied(env, s, lo, c, FRESH), Drain(AsWritten, env, s, lo, c));
            NewFrames(c, r) != [] ==> t.finished > 0 && Reported(t, r) == t.status
  {
    hide Sound, Tallied, NewFrames, Drain;
    DrainTells(env, s, lo, c, FRESH, 0);
  }

  /** Whatever was refused: a call that delivered a frame tells the last thing there was to report, be it the fate of a
      good frame or a lack of memory for a long one. */
  lemma StatusTellsLastNotable(env: nat -> Answers, s: seq<byte>, chunk: seq<byte>, c: Config)
    requires c.pos == |s| && Sound(s, c) && !c.crashed && !Drain(AsWritten, env, s + chunk, |s|, c).crashed
    ensures var r := Drain(AsWritten, env, s + chunk, |s|, c);
            var notes := Notables(env, s + chunk, |s|, c);
            NewFrames(c, r) != [] ==>
              notes != [] && Reported(Tallied(env, s + chunk, |s|, c, FRESH), r) == Told(notes[|notes| - 1])
  {
    hide Sound, Tallied, NewFrames, Drain, Notables, Telling, Reported;
    SoundExtends(s, chunk, c);
    var notes := Notables(env, s + chunk, |s|, c);
    DeliveryCounts(env, s + chunk, |s|, c);
    DrainTellsLast(env, s + chunk, |s|, c, FRESH, []);
    assert [] + notes == notes;
  }

  // ----- what a caller can know beforehand -----

  lemma {:induction false} DrainMovesUp(mode: Rewind, env: nat -> Answers, s: seq<byte>, lo: nat, c: Config)
    requires lo <= c.pos <= |s|
    ensures var r := Drain(mode, env, s, lo, c);
            !r.crashed ==> Start(c) <= Start(r) && (Start(r) == Start(c) || Start(r) >= lo)
    decreases !c.crashed, |s| - Start(c), |s| - c.pos
  {
    if !c.crashed && c.pos < |s| {
      StepMovesUp(mode, env(c.steps), s, lo, c);
      hide Step;
      DrainMovesUp(mode, env, s, lo, Step(mode, env(c.steps), s, lo, c));
    }
  }

  /** Called when the parser is idle, a call that delivers nothing tells UnfinishedFrame exactly if it ends inside a
      candidate: the documented meaning. */
  lemma IdleCallsTellTheTruth(env: nat -> Answers, s: seq<byte>, chunk: seq<byte>, c: Config)
    requires c.pos == |s| && Sound(s, c) && !c.crashed && c.parser.built == []
    requires !Drain(AsWritten, env, s + chunk, |s|, c).crashed
    ensures var r := Drain(AsWritten, env, s + chunk, |s|, c);
            NewFrames(c, r) == [] ==>
              Reported(Tallied(env, s + chunk, |s|, c, FRESH), r)
              == if r.parser.built != [] then UnfinishedFrame else NoFrames
  {
    hide Sound, Tallied, NewFrames, Drain, Reported;
    StatusMeaning(env, s, chunk, c);
    DrainMovesUp(AsWritten, env, s + chunk, |s|, c);
  }

  lemma CandidatePrefix(built: seq<byte>, n: nat)
    requires Candidate(built) && n <= |built|
    ensures Candidate(built[..n])
  {
    if n >= 6 {
      assert LenField(built[..n]) == LenField(built);
    }
  }

  /** While what was built and the bytes to come can still be a frame, an iteration only takes the next byte. */
  lemma StepContinues(a: Answers, s: seq<byte>, lo: nat, c: Config)
    requires lo <= c.pos < |s| && Sound(s, c) && !c.crashed && a.grow
    requires c.parser.built != [] && Candidate(c.parser.built + [s[c.pos]])
    ensures var r := Step(AsWritten, a, s, lo, c);
            !r.crashed && r.pos == c.pos + 1 && r.parser.built == c.parser.built + [s[c.pos]] && r.events == c.events
  {
    hide WellFormed, Genuine, Ordered;
    var q := c.parser.built + [s[c.pos]];
    assert q[0] == c.parser.built[0];
    if |q| >= 6 {
      assert LenField(q) < |q| + MAX_PAYLOAD;
    }
  }

  lemma {:induction false} DrainContinues(env: nat -> Answers, s: seq<byte>, lo: nat, c: Config)
    requires lo <= c.pos <= |s| && Sound(s, c) && !c.crashed && Roomy(env)
    requires c.parser.built != [] && Candidate(c.parser.built + s[c.pos..])
    ensures var r := Drain(AsWritten, env, s, lo, c);
            !r.crashed && r.parser.built == c.parser.built + s[c.pos..] && r.events == c.events && Start(r) == Start(c)
    decreases |s| - c.pos
  {
    hide Step, Sound, Candidate;
    if c.pos == |s| {
      assert c.parser.built + s[c.pos..] == c.parser.built;
    } else {
      var all := c.parser.built + s[c.pos..];
      var b := s[c.pos];
      assert all[..|c.parser.built| + 1] == c.parser.built + [b];
      assert c.parser.built + [b] + s[c.pos + 1..] == all;
      CandidatePrefix(all, |c.parser.built| + 1);
      StepContinues(env(c.steps), s, lo, c);
      StepIsSound(AsWritten, env(c.steps), s, lo, c);
      DrainContinues(env, s, lo, Step(AsWritten, env(c.steps), s, lo, c));
    }
  }

  /** A call leaves the candidate of an earlier call standing, and so can tell NoFrames in the middle of a frame,
      exactly if what was built before together with the chunk can still be a frame. */
  lemma OldCandidateStandsIff(env: nat -> Answers, s: seq<byte>, chunk: seq<byte>, c: Config)
    requires c.pos == |s| && Sound(s, c) && !c.crashed && c.parser.built != [] && Roomy(env)
    requires !Drain(AsWritten, env, s + chunk, |s|, c).crashed
    ensures var r := Drain(AsWritten, env, s + chunk, |s|, c);
            (r.parser.built != [] && Start(r) < |s| <==> Candidate(c.parser.built + chunk))
  {
    hide Sound, Drain, Candidate;
    var (all, r) := (s + chunk, Drain(AsWritten, env, s + chunk, |s|, c));
    assert all[|s|..] == chunk;
    SoundExtends(s, chunk, c);
    DrainIsSound(AsWritten, env, all, |s|, c);
    DrainMovesUp(AsWritten, env, all, |s|, c);
    if Candidate(c.parser.built + chunk) {
      DrainContinues(env, all, |s|, c);
    } else if r.parser.built != [] && Start(r) < |s| {
      StandingIsCandidate(s, chunk, c, r);
    }
  }

  lemma StandingIsCandidate(s: seq<byte>, chunk: seq<byte>, c: Config, r: Config)
    requires Sound(s, c) && Sound(s + chunk, r) && c.pos == |s| && r.pos == |s + chunk| && Start(r) == Start(c)
    ensures Candidate(c.parser.built + chunk)
  {
    assert r.parser.built == (s + chunk)[Start(c)..] == s[Start(c)..] + chunk;
  }

  /** Two calls of one byte each, the two header bytes: the second tells NoFrames although a frame is being built. */
  lemma NoFramesInMidFrame(env: nat -> Answers)
    requires Benign(env)
    ensures var c := Drain(AsWritten, env, [HEADER1], 0, INITIAL);
            && c.pos == 1
            && var r := Drain(AsWritten, env, [HEADER1, HEADER2], 1, c);
            && c.parser.built == [HEADER1] && r.parser.built == [HEADER1, HEADER2]
            && Reported(Tallied(env, [HEADER1], 0, INITIAL, FRESH), c) == UnfinishedFrame
            && Reported(Tallied(env, [HEADER1, HEADER2], 1, c, FRESH), r) == NoFrames
  {
    var c := INITIAL.(pos := 1, steps := 1, parser := INITIAL.parser.(built := [HEADER1]));
    var r := c.(pos := 2, steps := 2, parser := c.parser.(built := [HEADER1, HEADER2]));
    var t := Tally(UnfinishedFrame, 0);
    assert env(0) == GRANTED && env(1) == GRANTED;
    assert Step(AsWritten, GRANTED, [HEADER1], 0, INITIAL) == c;
    assert Tick(GRANTED, INITIAL, c, FRESH) == t;
    assert Drain(AsWritten, env, [HEADER1], 0, c) == c && Tallied(env, [HEADER1], 0, c, t) == t;
    assert [HEADER1] + [HEADER2] == [HEADER1, HEADER2];
    assert Step(AsWritten, GRANTED, [HEADER1, HEADER2], 1, c) == r;
    assert Tick(GRANTED, c, r, FRESH) == FRESH;
    assert Drain(AsWritten, env, [HEADER1, HEADER2], 1, r) == r
        && Tallied(env, [HEADER1, HEADER2], 1, r, FRESH) == FRESH;
  }
}
