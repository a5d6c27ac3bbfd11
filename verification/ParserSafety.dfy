/** What holds after every loop iteration, whatever the bytes, the chunk boundaries, the allocator
    and the frame queue do. */
module ParserSafety {
  import opened Protocol
  import opened ParserMachine

  /** built can still grow into a frame. */
  predicate Candidate(built: seq<byte>) {
    && (|built| >= 1 ==> built[0] == HEADER1)
    && (|built| >= 2 ==> built[1] == HEADER2)
    && (|built| >= 6 ==> |built| < OVERHEAD + LenField(built))
  }

  /** The building buffer has room for every write still to come. */
  predicate Capacity(p: Parser) {
    && (p.hasBuffer ==> STARTING_SIZE <= p.size <= MAX_PAYLOAD + OVERHEAD)
    && (|p.built| > 0 ==> p.hasBuffer && |p.built| < p.size)
    && (|p.built| >= 6 ==> OVERHEAD + LenField(p.built) <= p.size)
    && (|p.built| < 6 && p.hasBuffer && p.big < BIG_THRESHOLD ==> p.size == STARTING_SIZE)
  }

  /** The buffer holds exactly the last bytes read. */
  predicate Tail(s: seq<byte>, c: Config) {
    && |c.parser.built| <= c.pos <= |s|
    && c.parser.built == s[Start(c)..c.pos]
  }

  /** Event e is about the stream segment it names, and its verdict on that segment is right. */
  predicate Genuine(s: seq<byte>, e: Event) {
    && e.start + |e.frame| <= |s|
    && s[e.start..e.start + |e.frame|] == e.frame
    && |e.frame| >= OVERHEAD
    && e.frame[0] == HEADER1 && e.frame[1] == HEADER2
    && |e.frame| == OVERHEAD + LenField(e.frame)
    && (e.Accept? <==> WellFormed(e.frame))
  }

  /** First position an event leaves for later candidates. */
  function After(e: Event): nat {
    if e.Accept? then e.start + |e.frame| else e.start + 2
  }

  /** Events come in stream order; nothing starts inside an accepted frame. */
  ghost predicate Ordered(events: seq<Event>) {
    forall i, j :: 0 <= i < j < |events| ==> After(events[i]) <= events[j].start
  }

  ghost predicate Sound(s: seq<byte>, c: Config) {
    && Tail(s, c)
    && Candidate(c.parser.built)
    && Capacity(c.parser)
    && (forall e :: e in c.events ==> Genuine(s, e) && After(e) <= Start(c))
    && Ordered(c.events)
  }

  lemma InitialIsSound(s: seq<byte>)
    ensures Sound(s, INITIAL)
  {
    assert s[0..0] == [];
  }

  /** More input does not disturb what is known about earlier input. */
  lemma SoundExtends(s: seq<byte>, t: seq<byte>, c: Config)
    requires Sound(s, c)
    ensures Sound(s + t, c)
  {
    assert (s + t)[Start(c)..c.pos] == s[Start(c)..c.pos];
    forall e | e in c.events ensures Genuine(s + t, e) {
      assert Genuine(s, e);
      assert (s + t)[e.start..e.start + |e.frame|] == s[e.start..e.start + |e.frame|];
    }
  }

  lemma AppendOrdered(events: seq<Event>, e: Event)
    requires Ordered(events)
    requires forall d :: d in events ==> After(d) <= e.start
    ensures Ordered(events + [e])
  {
    var all := events + [e];
    forall i, j | 0 <= i < j < |all| ensures After(all[i]) <= all[j].start {
      assert all[i] in events;
    }
  }

  lemma PushKeepsTail(s: seq<byte>, c: Config)
    requires Tail(s, c) && c.pos < |s|
    ensures Push(c.parser, s[c.pos]).built == s[Start(c)..c.pos + 1]
  {
  }

  /** The first six bytes of the candidate, in the buffer and in the stream. */
  lemma HeadOfTail(s: seq<byte>, c: Config)
    requires Tail(s, c) && 0 <= Start(c) && |c.parser.built| >= 6
    ensures s[Start(c)..Start(c) + 6] == c.parser.built[..6]
  {
    assert s[Start(c)..c.pos][..6] == s[Start(c)..Start(c) + 6];
  }

  /** A truthful event about the candidate just completed keeps the record sound. */
  lemma SoundAfterDecision(s: seq<byte>, c: Config, e: Event, r: Config)
    requires Sound(s, c)
    requires Genuine(s, e) && e.start == Start(c) && After(e) <= r.pos <= |s|
    requires r.events == c.events + [e] && r.parser.built == [] && Capacity(r.parser)
    ensures Sound(s, r)
  {
    AppendOrdered(c.events, e);
    assert s[Start(r)..r.pos] == [];
    assert After(e) >= e.start;
  }

  /** A completed candidate, and what Step makes of it. */
  ghost predicate Completes(s: seq<byte>, c: Config) {
    && Tail(s, c) && c.pos < |s| && |c.parser.built| >= 8
    && Candidate(c.parser.built)
    && |c.parser.built| + 1 == OVERHEAD + LenField(c.parser.built)
  }

  function Verdict(a: Answers, start: nat, f: seq<byte>): Event {
    if WellFormed(f) then Accept(start, f, FateOf(a)) else Reject(start, f)
  }

  lemma VerdictIsGenuine(a: Answers, s: seq<byte>, c: Config)
    requires Completes(s, c)
    ensures Genuine(s, Verdict(a, Start(c), s[Start(c)..c.pos + 1]))
  {
    PushKeepsTail(s, c);
    var f := Push(c.parser, s[c.pos]).built;
    assert LenField(f) == LenField(c.parser.built);
  }

  lemma StepDecides(mode: Rewind, a: Answers, s: seq<byte>, lo: nat, c: Config)
    requires Completes(s, c) && lo <= c.pos
    ensures var r := Step(mode, a, s, lo, c);
            var e := Verdict(a, Start(c), s[Start(c)..c.pos + 1]);
            && r.events == c.events + [e]
            && r.parser == Restart(Push(c.parser, s[c.pos]), a.restart)
            && r.steps == c.steps + 1 && r.crashed == c.crashed
            && (if Resume(mode, e) >= lo then r.pos == Resume(mode, e) && r.lossy == c.lossy
                else r.pos == |s| && r.lossy)
  {
    PushKeepsTail(s, c);
    var f := Push(c.parser, s[c.pos]).built;
    assert LenField(f) == LenField(c.parser.built);
  }

  lemma DecideIsSound(mode: Rewind, a: Answers, s: seq<byte>, lo: nat, c: Config)
    requires lo <= c.pos && Sound(s, c) && Completes(s, c)
    ensures Sound(s, Step(mode, a, s, lo, c))
  {
    StepDecides(mode, a, s, lo, c);
    VerdictIsGenuine(a, s, c);
    SoundAfterDecision(s, c, Verdict(a, Start(c), s[Start(c)..c.pos + 1]), Step(mode, a, s, lo, c));
  }

  /** Growing, or giving up on growing, leaves a buffer that fits what comes next. */
  lemma ReadLengthKeepsCapacity(p: Parser, a: Answers)
    requires |p.built| == 6 && p.hasBuffer && STARTING_SIZE <= p.size <= MAX_PAYLOAD + OVERHEAD
    ensures var (q, kept) := ReadLength(p, a);
            && Capacity(q) && q.built == if kept then p.built else []
  {
  }

  ghost predicate MovesOn(s: seq<byte>, c: Config, r: Config) {
    && r.events == c.events && Start(c) <= Start(r)
    && Tail(s, r) && Candidate(r.parser.built) && Capacity(r.parser)
  }

  lemma StepHunts(mode: Rewind, a: Answers, s: seq<byte>, lo: nat, c: Config)
    requires lo <= c.pos < |s| && Tail(s, c) && Candidate(c.parser.built) && Capacity(c.parser)
    requires |c.parser.built| < 2
    ensures MovesOn(s, c, Step(mode, a, s, lo, c))
  {
    hide WellFormed, LenField;
    var r := Step(mode, a, s, lo, c);
    PushKeepsTail(s, c);
    if r.parser.built == [] {
      assert s[Start(r)..r.pos] == [];
    } else if r.pos == c.pos + 1 {
      assert r.parser.built == Push(c.parser, s[c.pos]).built;
    }
  }

  lemma StepCollects(mode: Rewind, a: Answers, s: seq<byte>, lo: nat, c: Config)
    requires lo <= c.pos < |s| && Tail(s, c) && Candidate(c.parser.built) && Capacity(c.parser)
    requires |c.parser.built| >= 2 && !Completes(s, c)
    ensures MovesOn(s, c, Step(mode, a, s, lo, c))
  {
    PushKeepsTail(s, c);
    var q := Push(c.parser, s[c.pos]);
    if |q.built| == 6 {
      ReadLengthKeepsCapacity(q, a);
    } else if |q.built| > 6 {
      assert LenField(q.built) == LenField(c.parser.built);
    }
  }

  /** An iteration that completes no candidate records nothing and never moves the candidate start back. */
  lemma StepMoves(mode: Rewind, a: Answers, s: seq<byte>, lo: nat, c: Config)
    requires lo <= c.pos < |s| && Tail(s, c) && Candidate(c.parser.built) && Capacity(c.parser)
    requires !Completes(s, c)
    ensures MovesOn(s, c, Step(mode, a, s, lo, c))
  {
    if |c.parser.built| < 2 {
      StepHunts(mode, a, s, lo, c);
    } else {
      StepCollects(mode, a, s, lo, c);
    }
  }

  /** Every iteration keeps soundness: all bytes, all rewinds, all answers. */
  lemma StepIsSound(mode: Rewind, a: Answers, s: seq<byte>, lo: nat, c: Config)
    requires lo <= c.pos < |s| && Sound(s, c)
    ensures Sound(s, Step(mode, a, s, lo, c))
  {
    if Completes(s, c) {
      DecideIsSound(mode, a, s, lo, c);
    } else {
      StepMoves(mode, a, s, lo, c);
    }
  }

  lemma {:induction false} DrainIsSound(mode: Rewind, env: nat -> Answers, s: seq<byte>, lo: nat, c: Config)
    requires lo <= c.pos <= |s| && Sound(s, c)
    ensures Sound(s, Drain(mode, env, s, lo, c))
    decreases !c.crashed, |s| - Start(c), |s| - c.pos
  {
    if !c.crashed && c.pos < |s| {
      StepIsSound(mode, env(c.steps), s, lo, c);
      DrainIsSound(mode, env, s, lo, Step(mode, env(c.steps), s, lo, c));
    }
  }

  // ----- cost -----

  lemma StepCounts(mode: Rewind, a: Answers, s: seq<byte>, lo: nat, c: Config)
    requires lo <= c.pos < |s|
    ensures Step(mode, a, s, lo, c).steps == c.steps + 1
  {
    hide WellFormed, LenField;
  }

  function Min(a: int, b: int): int {
    if a < b then a else b
  }

  /** Work still to be paid for: five iterations a byte, plus what the bytes already in the buffer saved up. */
  function Credit(s: seq<byte>, lo: nat, c: Config): int {
    5 * (|s| - c.pos) + Min(4 * |c.parser.built|, 7 + 4 * (c.pos - lo))
  }

  /** Each iteration of the code as written spends credit, although a rejection moves back. */
  lemma StepSpendsCredit(a: Answers, s: seq<byte>, lo: nat, c: Config)
    requires lo <= c.pos < |s|
    ensures var r := Step(AsWritten, a, s, lo, c);
            r.steps == c.steps + 1 && (r.crashed || Credit(s, lo, r) < Credit(s, lo, c))
  {
  }

  lemma {:induction false} DrainCost(env: nat -> Answers, s: seq<byte>, lo: nat, c: Config)
    requires lo <= c.pos <= |s|
    ensures Drain(AsWritten, env, s, lo, c).steps <= c.steps + Credit(s, lo, c)
    decreases !c.crashed, |s| - Start(c), |s| - c.pos
  {
    if !c.crashed && c.pos < |s| {
      var r := Step(AsWritten, env(c.steps), s, lo, c);
      StepSpendsCredit(env(c.steps), s, lo, c);
      if !r.crashed {
        DrainCost(env, s, lo, r);
      }
    }
  }

  /** One call on a chunk of n bytes makes at most 5n + 7 iterations, from any parser state; the chunk is what
      the stream s holds from lo on. */
  lemma CallCost(env: nat -> Answers, s: seq<byte>, lo: nat, c: Config, r: Config)
    requires c.pos == lo <= |s| && r == Drain(AsWritten, env, s, lo, c)
    ensures r.steps <= c.steps + 5 * (|s| - lo) + 7
  {
    DrainCost(env, s, lo, c);
    assert Credit(s, lo, c) <= 5 * (|s| - lo) + 7;
  }
}
