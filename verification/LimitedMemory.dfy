/** The parser on an allocator that refuses blocks beyond a limit, as the platform's does: what the loop then
    computes, and when it loses its buffer for good. */
module LimitedMemory {
  import opened Protocol
  import opened ParserMachine
  import opened ParserSafety
  import opened Scanner
  import opened Delivery

  /** lost: the buffer was given up at rest and never replaced. */
  datatype Found = Found(events: seq<Event>, lost: bool, rest: nat)

  /** A header at p declares more than the allocator grants. */
  predicate Oversized(limit: nat, s: seq<byte>, p: nat) {
    p + 6 <= |s| && s[p] == HEADER1 && s[p + 1] == HEADER2 && OVERHEAD + LenField(s[p..p + 6]) > limit
  }

  /** The count of big frames in a row, after a header that needs this much. */
  function Bump(size: nat, big: nat, need: nat): nat {
    if need >= size then big + 1 else 0
  }

  function Larger(a: nat, b: nat): nat {
    if a > b then a else b
  }

  function SizeAfter(size: nat, big: nat): nat {
    if big < BIG_THRESHOLD then STARTING_SIZE else size
  }

  /** The scanner of module Scanner with the buffer's size and the count of big frames: behind an oversized header it
      goes on after its six bytes, unless that is the third big one in a row. */
  function ScanLimited(mode: Rewind, limit: nat, s: seq<byte>, p: nat, size: nat, big: nat): Found
    requires p <= |s|
    decreases |s| - p
  {
    if Oversized(limit, s, p) then
      var b := Bump(size, big, OVERHEAD + LenField(s[p..p + 6]));
      if b >= BIG_THRESHOLD then Found([], true, p + 6) else ScanLimited(mode, limit, s, p + 6, STARTING_SIZE, b)
    else if Complete(s, p) then
      var e := EventAt(s, p);
      var b := Bump(size, big, |e.frame|);
      var later := ScanLimited(mode, limit, s, Resume(mode, e), SizeAfter(Larger(size, |e.frame|), b), b);
      later.(events := [e] + later.events)
    else if Pending(s, p) then Found([], false, p)
    else ScanLimited(mode, limit, s, p + 1, size, big)
  }

  /** The answers of such an allocator in configuration c; the queue takes every frame. */
  predicate Obeys(limit: nat, s: seq<byte>, c: Config, a: Answers)
    requires c.pos < |s|
  {
    && a.frame && a.save && a.restart
    && (|c.parser.built| == 5 ==> (a.grow <==> OVERHEAD + LenField(Push(c.parser, s[c.pos]).built) <= limit))
  }

  /** env answers like that all along the run from c. */
  ghost predicate Limited(mode: Rewind, env: nat -> Answers, limit: nat, s: seq<byte>, c: Config)
    requires c.pos <= |s|
    decreases !c.crashed, |s| - Start(c), |s| - c.pos
  {
    c.crashed || c.pos == |s|
    || (Obeys(limit, s, c, env(c.steps)) && Limited(mode, env, limit, s, Step(mode, env(c.steps), s, 0, c)))
  }

  /** size and big are what they were when the current candidate began. */
  ghost predicate Fits(limit: nat, s: seq<byte>, c: Config, size: nat, big: nat) {
    && Running(s, c) && STARTING_SIZE <= size <= limit
    && (big < BIG_THRESHOLD ==> size == STARTING_SIZE)
    && if |c.parser.built| < 6 then c.parser.size == size && c.parser.big == big
       else
         var need := OVERHEAD + LenField(c.parser.built);
         need <= limit && c.parser.size == Larger(size, need) && c.parser.big == Bump(size, big, need)
  }

  ghost predicate AgreesLimited(mode: Rewind, limit: nat, s: seq<byte>, c: Config, size: nat, big: nat, r: Config) {
    && 0 <= Start(c) <= |s|
    && var found := ScanLimited(mode, limit, s, Start(c), size, big);
       && found.rest <= |s| && r.events == c.events + found.events
       && if found.lost then (r.crashed <==> HEADER1 in s[found.rest..])
          else !r.crashed && r.parser.built == s[found.rest..]
  }

  /** This iteration reads the length of an oversized header. */
  predicate Refused(limit: nat, s: seq<byte>, c: Config) {
    && c.pos < |s| && |c.parser.built| == 5
    && OVERHEAD + LenField(Push(c.parser, s[c.pos]).built) > limit
  }

  lemma StepsAreGranted(mode: Rewind, limit: nat, s: seq<byte>, c: Config, a: Answers)
    requires c.pos < |s| && Obeys(limit, s, c, a) && !Refused(limit, s, c)
    ensures Step(mode, a, s, 0, c) == Step(mode, GRANTED, s, 0, c)
  {
    hide WellFormed, LenField;
  }

  lemma HeaderInStream(s: seq<byte>, c: Config)
    requires Sound(s, c) && c.pos < |s| && |c.parser.built| == 5
    ensures var p := Start(c);
            && 0 <= p && p + 6 == c.pos + 1 && s[p..p + 6] == Push(c.parser, s[c.pos]).built
            && s[p] == HEADER1 && s[p + 1] == HEADER2
  {
    PushKeepsTail(s, c);
    assert c.parser.built[0] == s[Start(c)] && c.parser.built[1] == s[Start(c) + 1];
  }

  // ----- an oversized header -----

  lemma RefusedStep(mode: Rewind, limit: nat, s: seq<byte>, c: Config, a: Answers, size: nat, big: nat)
    requires Fits(limit, s, c, size, big) && Refused(limit, s, c) && Obeys(limit, s, c, a)
    ensures var r := Step(mode, a, s, 0, c);
            var b := Bump(size, big, OVERHEAD + LenField(s[Start(c)..Start(c) + 6]));
            && 0 <= Start(c) && Oversized(limit, s, Start(c)) && Start(r) == Start(c) + 6 == r.pos
            && r.events == c.events && !r.crashed && !r.lossy
            && (if b >= BIG_THRESHOLD then r.parser.built == [] && !r.parser.hasBuffer
                else Fits(limit, s, r, STARTING_SIZE, b))
  {
    HeaderInStream(s, c);
    StepIsSound(mode, a, s, 0, c);
    hide WellFormed, LenField, Genuine, Ordered;
  }

  /** Without a buffer the loop reads on until it meets a header byte, which it writes through NULL. */
  lemma {:induction false} LostDrains(mode: Rewind, env: nat -> Answers, s: seq<byte>, c: Config)
    requires c.pos <= |s| && c.parser.built == [] && !c.parser.hasBuffer && !c.crashed
    ensures var r := Drain(mode, env, s, 0, c);
            r.events == c.events && (r.crashed <==> HEADER1 in s[c.pos..])
    decreases |s| - c.pos
  {
    if c.pos < |s| {
      var n := Step(mode, env(c.steps), s, 0, c);
      assert s[c.pos..] == [s[c.pos]] + s[c.pos + 1..];
      if s[c.pos] == HEADER1 {
        assert Drain(mode, env, s, 0, n) == n;
      } else {
        LostDrains(mode, env, s, n);
      }
    }
  }

  lemma RefusalAgrees(mode: Rewind, limit: nat, s: seq<byte>, c: Config, a: Answers, size: nat, big: nat, r: Config)
    requires Fits(limit, s, c, size, big) && Refused(limit, s, c) && Obeys(limit, s, c, a)
    requires var n := Step(mode, a, s, 0, c);
             var b := Bump(size, big, OVERHEAD + LenField(s[Start(c)..Start(c) + 6]));
             if b >= BIG_THRESHOLD then r.events == n.events && (r.crashed <==> HEADER1 in s[n.pos..])
             else AgreesLimited(mode, limit, s, n, STARTING_SIZE, b, r)
    ensures AgreesLimited(mode, limit, s, c, size, big, r)
  {
    RefusedStep(mode, limit, s, c, a, size, big);
    hide Step, LenField, Sound, Complete;
    assert c.events + [] == c.events;
  }

  // ----- all other iterations -----

  lemma ScanLimitedDecides(mode: Rewind, limit: nat, s: seq<byte>, p: nat, size: nat, big: nat)
    requires Complete(s, p) && !Oversized(limit, s, p)
    ensures var e := EventAt(s, p);
            var b := Bump(size, big, |e.frame|);
            && p < Resume(mode, e) <= |s|
            && var later := ScanLimited(mode, limit, s, Resume(mode, e), SizeAfter(Larger(size, |e.frame|), b), b);
               ScanLimited(mode, limit, s, p, size, big) == later.(events := [e] + later.events)
  {
    hide WellFormed, LenField;
  }

  lemma ScanLimitedSkips(mode: Rewind, limit: nat, s: seq<byte>, p: nat, size: nat, big: nat)
    requires p < |s| && !Pending(s, p)
    ensures ScanLimited(mode, limit, s, p, size, big) == ScanLimited(mode, limit, s, p + 1, size, big)
  {
    hide EventAt, LenField;
  }

  /** A decision, in the terms of the scanner. */
  lemma DecisionFits(mode: Rewind, limit: nat, s: seq<byte>, c: Config, size: nat, big: nat)
    requires Fits(limit, s, c, size, big) && Completes(s, c)
    ensures var n := Step(mode, GRANTED, s, 0, c);
            && 0 <= Start(c) && Complete(s, Start(c)) && !Oversized(limit, s, Start(c))
            && var e := EventAt(s, Start(c));
               var b := Bump(size, big, |e.frame|);
               && |e.frame| >= OVERHEAD && n.events == c.events + [e] && Start(n) == Resume(mode, e)
               && Fits(limit, s, n, SizeAfter(Larger(size, |e.frame|), b), b)
  {
    hide WellFormed, Genuine, Ordered, Candidate, Step;
    CompletedIsComplete(s, c);
    HeadOfTail(s, c);
    StepDecides(mode, GRANTED, s, 0, c);
    VerdictIsEvent(s, Start(c), c.pos + 1);
    StepKeepsRunning(mode, s, c);
    assert LenField(s[Start(c)..Start(c) + 6]) == LenField(c.parser.built);
    hide LenField;
  }

  lemma DecisionAgreesLimited(mode: Rewind, limit: nat, s: seq<byte>, c: Config, size: nat, big: nat, r: Config)
    requires Fits(limit, s, c, size, big) && Completes(s, c) && 0 <= Start(c) && Complete(s, Start(c))
    requires var e := EventAt(s, Start(c));
             var b := Bump(size, big, |e.frame|);
             AgreesLimited(mode, limit, s, Step(mode, GRANTED, s, 0, c), SizeAfter(Larger(size, |e.frame|), b), b, r)
    ensures AgreesLimited(mode, limit, s, c, size, big, r)
  {
    hide Step, ScanLimited, Complete, EventAt, Oversized, Fits, Completes, Resume;
    DecisionFits(mode, limit, s, c, size, big);
    ScanLimitedDecides(mode, limit, s, Start(c), size, big);
    var e := EventAt(s, Start(c));
    var b := Bump(size, big, |e.frame|);
    var later := ScanLimited(mode, limit, s, Resume(mode, e), SizeAfter(Larger(size, |e.frame|), b), b).events;
    assert c.events + [e] + later == c.events + ([e] + later);
  }

  lemma MoveFits(mode: Rewind, limit: nat, s: seq<byte>, c: Config, size: nat, big: nat)
    requires Fits(limit, s, c, size, big) && c.pos < |s| && !Completes(s, c) && !Refused(limit, s, c)
    ensures Fits(limit, s, Step(mode, GRANTED, s, 0, c), size, big)
  {
    StepKeepsRunning(mode, s, c);
    hide WellFormed, Genuine, Ordered;
    if |c.parser.built| >= 6 {
      PushKeepsTail(s, c);
      assert LenField(Push(c.parser, s[c.pos]).built) == LenField(c.parser.built);
    }
  }

  lemma MoveAgreesLimited(mode: Rewind, limit: nat, s: seq<byte>, c: Config, size: nat, big: nat, r: Config)
    requires Fits(limit, s, c, size, big) && c.pos < |s| && !Completes(s, c)
    requires AgreesLimited(mode, limit, s, Step(mode, GRANTED, s, 0, c), size, big, r)
    ensures AgreesLimited(mode, limit, s, c, size, big, r)
  {
    hide Genuine, Ordered, ScanLimited, LenField;
    var n := Step(mode, GRANTED, s, 0, c);
    MoveStays(mode, s, c);
    if Start(n) != Start(c) {
      ScanLimitedSkips(mode, limit, s, Start(c), size, big);
    }
  }

  lemma RestAgreesLimited(mode: Rewind, limit: nat, s: seq<byte>, c: Config, size: nat, big: nat)
    requires Fits(limit, s, c, size, big) && c.pos == |s|
    ensures AgreesLimited(mode, limit, s, c, size, big, c)
  {
    hide Genuine, Ordered, WellFormed;
    var p := Start(c);
    if |c.parser.built| >= 6 {
      HeadOfTail(s, c);
      assert LenField(s[p..p + 6]) == LenField(c.parser.built);
    }
    assert c.parser.built == s[p..];
    assert c.events + [] == c.events;
  }

  lemma {:induction false} LimitedDrainScans(mode: Rewind, env: nat -> Answers, limit: nat, s: seq<byte>, c: Config,
                                             size: nat, big: nat)
    requires Fits(limit, s, c, size, big) && Limited(mode, env, limit, s, c)
    ensures AgreesLimited(mode, limit, s, c, size, big, Drain(mode, env, s, 0, c))
    decreases |s| - Start(c), |s| - c.pos
  {
    RunningIsAlive(limit, s, c, size, big);
    hide Fits, AgreesLimited, Step, Completes, Refused, Obeys;
    if c.pos == |s| {
      RestAgreesLimited(mode, limit, s, c, size, big);
    } else {
      var a := env(c.steps);
      var n := Step(mode, a, s, 0, c);
      var r := Drain(mode, env, s, 0, n);
      if Refused(limit, s, c) {
        RefusedStep(mode, limit, s, c, a, size, big);
        var b := Bump(size, big, OVERHEAD + LenField(s[Start(c)..Start(c) + 6]));
        if b >= BIG_THRESHOLD {
          LostDrains(mode, env, s, n);
        } else {
          LimitedDrainScans(mode, env, limit, s, n, STARTING_SIZE, b);
        }
        RefusalAgrees(mode, limit, s, c, a, size, big, r);
      } else {
        StepsAreGranted(mode, limit, s, c, a);
        if Completes(s, c) {
          DecisionFits(mode, limit, s, c, size, big);
          var e := EventAt(s, Start(c));
          var b := Bump(size, big, |e.frame|);
          LimitedDrainScans(mode, env, limit, s, n, SizeAfter(Larger(size, |e.frame|), b), b);
          DecisionAgreesLimited(mode, limit, s, c, size, big, r);
        } else {
          MoveFits(mode, limit, s, c, size, big);
          LimitedDrainScans(mode, env, limit, s, n, size, big);
          MoveAgreesLimited(mode, limit, s, c, size, big, r);
        }
      }
    }
  }

  lemma RunningIsAlive(limit: nat, s: seq<byte>, c: Config, size: nat, big: nat)
    requires Fits(limit, s, c, size, big)
    ensures !c.crashed && 0 <= Start(c) <= c.pos <= |s|
  {
  }

  /** On an allocator with a limit, from the initial state and on one buffer: the loop delivers what the limited
      scanner finds; it loses its buffer exactly when the scanner meets its third big header in a row and that one is
      oversized, and then crashes exactly if another header byte follows. */
  lemma LimitedStreamScans(mode: Rewind, env: nat -> Answers, limit: nat, s: seq<byte>)
    requires limit >= STARTING_SIZE && Limited(mode, env, limit, s, INITIAL)
    ensures var (r, found) := (Drain(mode, env, s, 0, INITIAL), ScanLimited(mode, limit, s, 0, STARTING_SIZE, 0));
            && found.rest <= |s| && r.events == found.events
            && (r.crashed <==> found.lost && HEADER1 in s[found.rest..])
            && (!found.lost ==> r.parser.built == s[found.rest..])
  {
    InitialIsSound(s);
    LimitedDrainScans(mode, env, limit, s, INITIAL, STARTING_SIZE, 0);
    hide Drain, ScanLimited, Limited;
    var found := ScanLimited(mode, limit, s, 0, STARTING_SIZE, 0);
    assert [] + found.events == found.events;
  }

  /** A header that declares 65535 bytes of payload. */
  const HUGE: seq<byte> := [0x53, 0x59, 0, 0, 0xFF, 0xFF]

  /** Three of them in a row and one more header byte: no allocator with a realistic limit survives that. */
  lemma ThreeHugeHeadersCrash(mode: Rewind, env: nat -> Answers, limit: nat)
    requires STARTING_SIZE <= limit < MAX_PAYLOAD + OVERHEAD
    requires Limited(mode, env, limit, HUGE + HUGE + HUGE + [HEADER1], INITIAL)
    ensures Drain(mode, env, HUGE + HUGE + HUGE + [HEADER1], 0, INITIAL).crashed
  {
    var s := HUGE + HUGE + HUGE + [HEADER1];
    LimitedStreamScans(mode, env, limit, s);
    hide Limited, Drain;
    assert s[0..6] == HUGE && s[6..12] == HUGE && s[12..18] == HUGE && s[18..] == [HEADER1];
    assert ScanLimited(mode, limit, s, 12, STARTING_SIZE, 2) == Found([], true, 18);
    assert ScanLimited(mode, limit, s, 6, STARTING_SIZE, 1) == ScanLimited(mode, limit, s, 12, STARTING_SIZE, 2);
  }

  /** Two of them are survived: the buffer is given back and reallocated, and the frame behind them is delivered. */
  lemma TwoHugeHeadersAreSurvived(mode: Rewind, env: nat -> Answers, limit: nat)
    requires 20 <= limit < MAX_PAYLOAD + OVERHEAD && Limited(mode, env, limit, HUGE + HUGE + GENUINE, INITIAL)
    ensures var r := Drain(mode, env, HUGE + HUGE + GENUINE, 0, INITIAL);
            !r.crashed && r.parser.built == [] && r.events == [Accept(12, GENUINE, Taken)]
  {
    var s := HUGE + HUGE + GENUINE;
    LimitedStreamScans(mode, env, limit, s);
    HiddenDecision(mode);
    hide Limited, Drain, WellFormed;
    assert s[0..6] == HUGE && s[6..12] == HUGE && s[12..18] == GENUINE[..6] && s[12..12 + |GENUINE|] == GENUINE;
    AcceptedEvent(s, 12, GENUINE);
    ScanLimitedDecides(mode, limit, s, 12, STARTING_SIZE, 2);
    assert ScanLimited(mode, limit, s, 21, STARTING_SIZE, 0) == Found([], false, 21);
    assert ScanLimited(mode, limit, s, 6, STARTING_SIZE, 1) == ScanLimited(mode, limit, s, 12, STARTING_SIZE, 2);
  }

  // ----- such an allocator exists for every stream -----

  function Answer(limit: nat, s: seq<byte>, c: Config): Answers {
    if c.pos < |s| && |c.parser.built| == 5 && OVERHEAD + LenField(Push(c.parser, s[c.pos]).built) > limit
    then GRANTED.(grow := false) else GRANTED
  }

  /** The configuration after k iterations with these answers. */
  function After(mode: Rewind, limit: nat, s: seq<byte>, k: nat): (c: Config)
    ensures c.pos <= |s|
  {
    if k == 0 then INITIAL
    else
      var c := After(mode, limit, s, k - 1);
      if c.crashed || c.pos == |s| then c else Step(mode, Answer(limit, s, c), s, 0, c)
  }

  lemma {:induction false} AnswersObey(mode: Rewind, limit: nat, s: seq<byte>, k: nat, env: nat -> Answers)
    requires After(mode, limit, s, k).steps == k
    requires forall j :: env(j) == Answer(limit, s, After(mode, limit, s, j))
    ensures Limited(mode, env, limit, s, After(mode, limit, s, k))
    decreases !After(mode, limit, s, k).crashed,
              |s| - Start(After(mode, limit, s, k)), |s| - After(mode, limit, s, k).pos
  {
    hide Step, Answer, Obeys, After;
    var c := After(mode, limit, s, k);
    if !c.crashed && c.pos < |s| {
      AfterNext(mode, limit, s, k);
      AnswerObeys(limit, s, c);
      StepCounts(mode, env(k), s, 0, c);
      AnswersObey(mode, limit, s, k + 1, env);
    }
  }

  lemma AfterNext(mode: Rewind, limit: nat, s: seq<byte>, k: nat)
    requires var c := After(mode, limit, s, k); !c.crashed && c.pos < |s|
    ensures var c := After(mode, limit, s, k);
            After(mode, limit, s, k + 1) == Step(mode, Answer(limit, s, c), s, 0, c)
  {
  }

  lemma AnswerObeys(limit: nat, s: seq<byte>, c: Config)
    requires c.pos < |s|
    ensures Obeys(limit, s, c, Answer(limit, s, c))
  {
  }

  lemma SomeAllocatorObeys(mode: Rewind, limit: nat, s: seq<byte>)
    ensures exists env: nat -> Answers :: Limited(mode, env, limit, s, INITIAL)
  {
    var env: nat -> Answers := (k: nat) => Answer(limit, s, After(mode, limit, s, k));
    AnswersObey(mode, limit, s, 0, env);
  }
}
