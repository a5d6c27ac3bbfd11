/** A recursive reference scanner, and the proof that the loop with its backward jumps computes it. */
module Scanner {
  import opened Protocol
  import opened ParserMachine
  import opened ParserSafety

  /** rest is where the unfinished last candidate begins (the end of the stream if there is none). */
  datatype Scanned = Scanned(events: seq<Event>, rest: nat)

  /** A header at p with all the bytes it declares. */
  predicate Complete(s: seq<byte>, p: nat) {
    && p + OVERHEAD <= |s| && s[p] == HEADER1 && s[p + 1] == HEADER2
    && p + OVERHEAD + LenField(s[p..p + 6]) <= |s|
  }

  function EventAt(s: seq<byte>, p: nat): (e: Event)
    requires Complete(s, p)
  {
    var f := s[p..p + OVERHEAD + LenField(s[p..p + 6])];
    if WellFormed(f) then Accept(p, f, Taken) else Reject(p, f)
  }

  /** What there is of s from p on may still become a frame. */
  predicate Pending(s: seq<byte>, p: nat)
    requires p <= |s|
  {
    p == |s| || (s[p] == HEADER1 && (p + 1 == |s| || s[p + 1] == HEADER2))
  }

  /** Find 53 59 at p and read L; accept and go on behind the frame, or reject and resume. */
  function Scan(mode: Rewind, s: seq<byte>, p: nat): (r: Scanned)
    requires p <= |s|
    ensures p <= r.rest <= |s|
    decreases |s| - p
  {
    if Complete(s, p) then
      var e := EventAt(s, p);
      var later := Scan(mode, s, Resume(mode, e));
      Scanned([e] + later.events, later.rest)
    else if Pending(s, p) then Scanned([], p)
    else Scan(mode, s, p + 1)
  }

  lemma ScanDecides(mode: Rewind, s: seq<byte>, p: nat)
    requires Complete(s, p)
    ensures var e := EventAt(s, p);
            && p < Resume(mode, e) <= |s|
            && var later := Scan(mode, s, Resume(mode, e));
               Scan(mode, s, p) == Scanned([e] + later.events, later.rest)
  {
    hide WellFormed;
  }

  lemma ScanSkips(mode: Rewind, s: seq<byte>, p: nat)
    requires p < |s| && !Pending(s, p)
    ensures Scan(mode, s, p) == Scan(mode, s, p + 1)
  {
    hide EventAt;
  }

  /** The allocator and the queue never refuse. */
  ghost predicate Benign(env: nat -> Answers) {
    forall k :: env(k) == GRANTED
  }

  ghost predicate Running(s: seq<byte>, c: Config) {
    Sound(s, c) && c.parser.hasBuffer && !c.crashed && !c.lossy
  }

  /** What draining the whole stream from c must produce according to the scanner. */
  ghost predicate Agrees(mode: Rewind, s: seq<byte>, c: Config, r: Config) {
    && 0 <= Start(c) <= |s|
    && var scan := Scan(mode, s, Start(c));
       && r.events == c.events + scan.events
       && r.parser.built == s[scan.rest..]
       && !r.lossy && !r.crashed && r.parser.hasBuffer
  }

  lemma CompletedIsComplete(s: seq<byte>, c: Config)
    requires Completes(s, c) && 0 <= Start(c)
    ensures var p := Start(c);
            Complete(s, p) && p + OVERHEAD + LenField(s[p..p + 6]) == c.pos + 1
  {
    var p := Start(c);
    HeadOfTail(s, c);
    assert s[p] == c.parser.built[0] && s[p + 1] == c.parser.built[1];
    assert LenField(s[p..p + 6]) == LenField(c.parser.built);
  }

  /** A completed candidate is exactly the scanner's next decision. */
  lemma CompletedIsNextDecision(mode: Rewind, s: seq<byte>, c: Config)
    requires Completes(s, c) && 0 <= Start(c)
    ensures var p := Start(c);
            var e := Verdict(GRANTED, p, s[p..c.pos + 1]);
            && p < Resume(mode, e) <= |s|
            && var later := Scan(mode, s, Resume(mode, e));
               Scan(mode, s, p) == Scanned([e] + later.events, later.rest)
  {
    hide WellFormed, LenField, Tail, Candidate, Scan, Complete, EventAt, Verdict, Resume;
    CompletedIsComplete(s, c);
    ScanDecides(mode, s, Start(c));
    VerdictIsEvent(s, Start(c), c.pos + 1);
  }

  lemma VerdictIsEvent(s: seq<byte>, p: nat, end: nat)
    requires Complete(s, p) && end == p + OVERHEAD + LenField(s[p..p + 6])
    ensures EventAt(s, p) == Verdict(GRANTED, p, s[p..end])
  {
    hide WellFormed, LenField;
  }

  lemma PrependAgrees(mode: Rewind, s: seq<byte>, c: Config, e: Event, n: Config, r: Config)
    requires 0 <= Start(c) <= |s| && n.events == c.events + [e] && Agrees(mode, s, n, r)
    requires Scan(mode, s, Start(c)).events == [e] + Scan(mode, s, Start(n)).events
    requires Scan(mode, s, Start(c)).rest == Scan(mode, s, Start(n)).rest
    ensures Agrees(mode, s, c, r)
  {
    hide Scan;
    var later := Scan(mode, s, Start(n)).events;
    assert c.events + [e] + later == c.events + ([e] + later);
  }

  lemma DecisionAgrees(mode: Rewind, s: seq<byte>, c: Config, r: Config)
    requires Running(s, c) && Completes(s, c)
    requires Agrees(mode, s, Step(mode, GRANTED, s, 0, c), r)
    ensures Agrees(mode, s, c, r)
  {
    hide Scan, Step, Verdict, Resume, WellFormed, LenField, Candidate, Genuine, Agrees;
    var e := Verdict(GRANTED, Start(c), s[Start(c)..c.pos + 1]);
    StepDecides(mode, GRANTED, s, 0, c);
    CompletedIsNextDecision(mode, s, c);
    PrependAgrees(mode, s, c, e, Step(mode, GRANTED, s, 0, c), r);
  }

  lemma MoveStays(mode: Rewind, s: seq<byte>, c: Config)
    requires Running(s, c) && c.pos < |s| && !Completes(s, c)
    ensures var n := Step(mode, GRANTED, s, 0, c);
            && n.events == c.events
            && (Start(n) == Start(c) || (Start(n) == Start(c) + 1 <= |s| && !Pending(s, Start(c))))
  {
    hide Genuine, Ordered;
    if |c.parser.built| >= 2 {
      StepCollects(mode, GRANTED, s, 0, c);
    }
  }

  /** An iteration without a decision leaves the rest of the scan unchanged. */
  lemma MoveAgrees(mode: Rewind, s: seq<byte>, c: Config, r: Config)
    requires Running(s, c) && c.pos < |s| && !Completes(s, c)
    requires Agrees(mode, s, Step(mode, GRANTED, s, 0, c), r)
    ensures Agrees(mode, s, c, r)
  {
    hide Genuine, Ordered, Scan;
    var n := Step(mode, GRANTED, s, 0, c);
    MoveStays(mode, s, c);
    if Start(n) != Start(c) {
      ScanSkips(mode, s, Start(c));
    }
  }

  lemma StepKeepsRunning(mode: Rewind, s: seq<byte>, c: Config)
    requires Running(s, c) && c.pos < |s|
    ensures Running(s, Step(mode, GRANTED, s, 0, c))
  {
    StepIsSound(mode, GRANTED, s, 0, c);
    if Completes(s, c) {
      StepDecides(mode, GRANTED, s, 0, c);
    }
  }

  lemma PendingAgrees(mode: Rewind, s: seq<byte>, c: Config)
    requires Running(s, c) && c.pos == |s|
    ensures Agrees(mode, s, c, c)
  {
    hide Genuine, Ordered, Capacity, WellFormed;
    var p := Start(c);
    assert c.parser.built == s[p..];
    if |c.parser.built| >= 6 {
      HeadOfTail(s, c);
      assert LenField(s[p..p + 6]) == LenField(c.parser.built);
    }
    assert !Complete(s, p) && Pending(s, p);
  }

  /** Refinement: on one buffer, the loop with rewinds computes the scanner, for either rewind. */
  lemma {:induction false} DrainScans(mode: Rewind, env: nat -> Answers, s: seq<byte>, c: Config)
    requires Running(s, c) && Benign(env)
    ensures Agrees(mode, s, c, Drain(mode, env, s, 0, c))
    decreases |s| - Start(c), |s| - c.pos
  {
    if c.pos == |s| {
      PendingAgrees(mode, s, c);
    } else {
      var n := Step(mode, GRANTED, s, 0, c);
      StepKeepsRunning(mode, s, c);
      DrainScans(mode, env, s, n);
      var r := Drain(mode, env, s, 0, n);
      if Completes(s, c) {
        DecisionAgrees(mode, s, c, r);
      } else {
        MoveAgrees(mode, s, c, r);
      }
    }
  }

  /** From the parser's initial state the whole stream is scanned from its first byte. */
  lemma WholeStreamScans(mode: Rewind, env: nat -> Answers, s: seq<byte>)
    requires Benign(env)
    ensures Agrees(mode, s, INITIAL, Drain(mode, env, s, 0, INITIAL))
    ensures Drain(mode, env, s, 0, INITIAL).events == Scan(mode, s, 0).events
  {
    InitialIsSound(s);
    DrainScans(mode, env, s, INITIAL);
    assert [] + Scan(mode, s, 0).events == Scan(mode, s, 0).events;
  }

  // ----- which frames of the stream are found -----

  ghost predicate FrameAt(s: seq<byte>, q: nat) {
    Complete(s, q) && EventAt(s, q).Accept?
  }

  ghost predicate AcceptedAt(events: seq<Event>, q: nat) {
    exists e :: e in events && e.Accept? && e.start == q
  }

  /** Some decision makes the scanner jump over q. */
  ghost predicate JumpedOver(mode: Rewind, events: seq<Event>, q: nat) {
    exists e :: e in events && |e.frame| >= OVERHEAD && e.start < q < Resume(mode, e)
  }

  ghost predicate Within(mode: Rewind, s: seq<byte>, p: nat, rest: nat, e: Event) {
    p <= e.start && Complete(s, e.start) && e == EventAt(s, e.start) && Resume(mode, e) <= rest
  }

  lemma {:induction false} ScanBounds(mode: Rewind, s: seq<byte>, p: nat)
    requires p <= |s|
    ensures forall e :: e in Scan(mode, s, p).events ==> Within(mode, s, p, Scan(mode, s, p).rest, e)
    decreases |s| - p
  {
    if Complete(s, p) {
      ScanBounds(mode, s, Resume(mode, EventAt(s, p)));
    } else if !Pending(s, p) {
      ScanBounds(mode, s, p + 1);
    }
  }

  /** A frame that lies in the stream is found exactly when it begins before the unfinished last candidate
      and no decision jumped over its first byte. */
  lemma {:induction false} FoundUnlessJumpedOver(mode: Rewind, s: seq<byte>, p: nat, q: nat)
    requires p <= q && FrameAt(s, q)
    ensures var scan := Scan(mode, s, p);
            AcceptedAt(scan.events, q) <==> q < scan.rest && !JumpedOver(mode, scan.events, q)
    decreases |s| - p
  {
    if !Complete(s, p) && !Pending(s, p) {
      FoundUnlessJumpedOver(mode, s, p + 1, q);
    } else if Complete(s, p) {
      FoundStep(mode, s, p, q);
    }
  }

  lemma {:induction false} FoundStep(mode: Rewind, s: seq<byte>, p: nat, q: nat)
    requires p <= q && FrameAt(s, q) && Complete(s, p)
    ensures var scan := Scan(mode, s, p);
            AcceptedAt(scan.events, q) <==> q < scan.rest && !JumpedOver(mode, scan.events, q)
    decreases |s| - p, 0
  {
    var e := EventAt(s, p);
    var resume := Resume(mode, e);
    var later := Scan(mode, s, resume).events;
    var events := [e] + later;
    assert e in events && (forall d :: d in events <==> d == e || d in later);
    ScanBounds(mode, s, resume);
    if resume <= q {
      FoundUnlessJumpedOver(mode, s, resume, q);
      assert JumpedOver(mode, events, q) <==> JumpedOver(mode, later, q);
    } else if p < q {
      assert JumpedOver(mode, events, q);
      assert !AcceptedAt(later, q);
    }
  }

  /** With the intended rewind only an accepted frame can hide another one. */
  lemma IntendedLosesNothing(s: seq<byte>, q: nat)
    requires FrameAt(s, q) && q < Scan(Intended, s, 0).rest
    requires forall e :: e in Scan(Intended, s, 0).events && e.Accept? ==> !(e.start < q < e.start + |e.frame|)
    ensures AcceptedAt(Scan(Intended, s, 0).events, q)
  {
    hide Scan, WellFormed, Pending;
    var events := Scan(Intended, s, 0).events;
    FoundUnlessJumpedOver(Intended, s, 0, q);
    ScanBounds(Intended, s, 0);
    forall e | e in events ensures !(e.start < q < Resume(Intended, e)) {
      assert Within(Intended, s, 0, Scan(Intended, s, 0).rest, e);
      assert s[e.start + 1] == HEADER2;
    }
  }

  /** A header at i declares a frame that reaches past q. */
  predicate ReachesPast(s: seq<byte>, i: nat, q: nat) {
    i + 6 <= |s| && s[i] == HEADER1 && s[i + 1] == HEADER2 && i + OVERHEAD + LenField(s[i..i + 6]) > q
  }

  /** By the stream alone: a frame is found if no header before it declares a length that reaches past its first
      byte. */
  lemma {:induction false} FoundIfNothingReachesPast(mode: Rewind, s: seq<byte>, p: nat, q: nat)
    requires p <= q && FrameAt(s, q) && forall i :: p <= i < q ==> !ReachesPast(s, i, q)
    ensures AcceptedAt(Scan(mode, s, p).events, q)
    decreases q - p
  {
    hide WellFormed, Scan, LenField;
    if p == q {
      ScanDecides(mode, s, p);
      assert Scan(mode, s, p).events[0] == EventAt(s, p);
    } else {
      assert !ReachesPast(s, p, q);
      if Complete(s, p) {
        ScanDecides(mode, s, p);
        var resume := Resume(mode, EventAt(s, p));
        FoundIfNothingReachesPast(mode, s, resume, q);
        var e :| e in Scan(mode, s, resume).events && e.Accept? && e.start == q;
        assert e in Scan(mode, s, p).events;
      } else {
        ScanSkips(mode, s, p);
        FoundIfNothingReachesPast(mode, s, p + 1, q);
      }
    }
  }
}
