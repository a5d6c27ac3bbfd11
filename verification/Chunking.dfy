/** Parsing a stream in pieces: when it is the same as parsing it whole. */
module Chunking {
  import opened Protocol
  import opened ParserMachine
  import opened ParserSafety

  /** One mmwave_parse_data call per chunk, after the bytes s have been seen. */
  function Run(mode: Rewind, env: nat -> Answers, s: seq<byte>, chunks: seq<seq<byte>>, c: Config): (r: Config)
    requires c.pos <= |s| && (c.crashed || c.pos == |s|)
    decreases |chunks|
  {
    if chunks == [] || c.crashed then c
    else Run(mode, env, s + chunks[0], chunks[1..], Drain(mode, env, s + chunks[0], |s|, c))
  }

  /** Stream index of the byte that completed the candidate of e. */
  function Decided(e: Event): int {
    e.start + |e.frame| - 1
  }

  /** No rejection from position `from` on reaches back across `from`. */
  ghost predicate Clears(mode: Rewind, events: seq<Event>, from: nat) {
    forall e :: e in events && e.Reject? && Decided(e) >= from && |e.frame| >= OVERHEAD ==> Resume(mode, e) >= from
  }

  /** No rejection reaches back across the start of the chunk it is decided in. */
  ghost predicate Unbroken(mode: Rewind, events: seq<Event>, from: nat, chunks: seq<seq<byte>>)
    decreases |chunks|
  {
    chunks != [] ==>
      Clears(mode, events, from) && Unbroken(mode, events, from + |chunks[0]|, chunks[1..])
  }

  lemma StepGrows(mode: Rewind, a: Answers, s: seq<byte>, lo: nat, c: Config)
    requires lo <= c.pos < |s|
    ensures var r := Step(mode, a, s, lo, c);
            c.events <= r.events && (c.lossy ==> r.lossy)
  {
    hide LenField, WellFormed, Restart;
  }

  /** A drain only appends events, and never takes back a loss. */
  lemma {:induction false} DrainGrows(mode: Rewind, env: nat -> Answers, s: seq<byte>, lo: nat, c: Config)
    requires lo <= c.pos <= |s|
    ensures var r := Drain(mode, env, s, lo, c);
            c.events <= r.events && (c.lossy ==> r.lossy) && r.pos <= |s|
    decreases !c.crashed, |s| - Start(c), |s| - c.pos
  {
    hide Step;
    if !c.crashed && c.pos < |s| {
      StepGrows(mode, env(c.steps), s, lo, c);
      DrainGrows(mode, env, s, lo, Step(mode, env(c.steps), s, lo, c));
    }
  }

  lemma {:induction false} RunKeepsLoss(mode: Rewind, env: nat -> Answers, s: seq<byte>, chunks: seq<seq<byte>>,
      c: Config)
    requires c.pos <= |s| && (c.crashed || c.pos == |s|)
    ensures c.lossy ==> Run(mode, env, s, chunks, c).lossy
    decreases |chunks|
  {
    if chunks != [] && !c.crashed {
      var c1 := Drain(mode, env, s + chunks[0], |s|, c);
      DrainGrows(mode, env, s + chunks[0], |s|, c);
      RunKeepsLoss(mode, env, s + chunks[0], chunks[1..], c1);
    }
  }

  /** A step that loses nothing does the same whatever follows the bytes seen so far. */
  lemma StepPrefix(mode: Rewind, a: Answers, s: seq<byte>, t: seq<byte>, lo: nat, c: Config)
    requires lo <= c.pos < |s| && !c.lossy
    ensures Step(mode, a, s + t, lo, c).lossy == Step(mode, a, s, lo, c).lossy
    ensures !Step(mode, a, s, lo, c).lossy ==> Step(mode, a, s + t, lo, c) == Step(mode, a, s, lo, c)
  {
    assert (s + t)[c.pos] == s[c.pos];
  }

  /** Draining s + t is draining s first. */
  lemma {:induction false} DrainPrefix(mode: Rewind, env: nat -> Answers, s: seq<byte>, t: seq<byte>, lo: nat,
      c: Config)
    requires lo <= c.pos <= |s| && !c.lossy
    requires !Drain(mode, env, s, lo, c).lossy || !Drain(mode, env, s + t, lo, c).lossy
    ensures var r := Drain(mode, env, s, lo, c);
            !r.lossy && lo <= r.pos <= |s| && Drain(mode, env, s + t, lo, c) == Drain(mode, env, s + t, lo, r)
    decreases !c.crashed, |s| - Start(c), |s| - c.pos
  {
    if !c.crashed && c.pos < |s| {
      var a := env(c.steps);
      var n := Step(mode, a, s, lo, c);
      StepPrefix(mode, a, s, t, lo, c);
      DrainGrows(mode, env, s, lo, n);
      DrainGrows(mode, env, s + t, lo, Step(mode, a, s + t, lo, c));
      DrainPrefix(mode, env, s, t, lo, n);
    }
  }

  /** With no rewind across lo, a lower bound `down` below it does the same. */
  lemma StepLo(mode: Rewind, a: Answers, s: seq<byte>, lo: nat, down: nat, c: Config)
    requires down <= lo <= c.pos < |s| && !c.lossy && Sound(s, c)
    ensures var (n, w) := (Step(mode, a, s, lo, c), Step(mode, a, s, down, c));
            && (n.lossy ==> Completes(s, c))
            && (!n.lossy ==> n == w)
            && (!Completes(s, c) ==> n.events == c.events)
    ensures Completes(s, c) ==>
              var e := Verdict(a, Start(c), s[Start(c)..c.pos + 1]);
              && Decided(e) == c.pos && Step(mode, a, s, lo, c).events == c.events + [e]
              && Step(mode, a, s, down, c).events == c.events + [e]
              && (Step(mode, a, s, lo, c).lossy <==> Resume(mode, e) < lo)
  {
    if Completes(s, c) {
      StepDecides(mode, a, s, lo, c);
      StepDecides(mode, a, s, down, c);
    } else {
      PushKeepsTail(s, c);
    }
  }

  lemma {:induction false} LoIrrelevant(mode: Rewind, env: nat -> Answers, s: seq<byte>, lo: nat, c: Config)
    requires lo <= c.pos <= |s| && !c.lossy && Sound(s, c)
    requires Clears(mode, Drain(mode, env, s, 0, c).events, lo)
    ensures Drain(mode, env, s, lo, c) == Drain(mode, env, s, 0, c) && !Drain(mode, env, s, lo, c).lossy
    decreases !c.crashed, |s| - Start(c), |s| - c.pos
  {
    if !c.crashed && c.pos < |s| {
      var a := env(c.steps);
      var n := Step(mode, a, s, lo, c);
      StepLo(mode, a, s, lo, 0, c);
      StepIsSound(mode, a, s, lo, c);
      DrainGrows(mode, env, s, 0, Step(mode, a, s, 0, c));
      if Completes(s, c) {
        var e := Verdict(a, Start(c), s[Start(c)..c.pos + 1]);
        assert e in Step(mode, a, s, 0, c).events;
        assert e in Drain(mode, env, s, 0, c).events;
        assert !n.lossy;
      }
      LoIrrelevant(mode, env, s, lo, n);
    }
  }

  /** A drain without loss is a drain from any lower bound, and rejected nothing across lo. */
  lemma {:induction false} LosslessLowers(mode: Rewind, env: nat -> Answers, s: seq<byte>, lo: nat, down: nat,
      c: Config)
    requires down <= lo <= c.pos <= |s| && !Drain(mode, env, s, lo, c).lossy && Sound(s, c)
    requires Clears(mode, c.events, lo)
    ensures Drain(mode, env, s, lo, c) == Drain(mode, env, s, down, c)
    ensures Clears(mode, Drain(mode, env, s, lo, c).events, lo)
    decreases !c.crashed, |s| - Start(c), |s| - c.pos
  {
    hide Sound, Step;
    DrainGrows(mode, env, s, lo, c);
    if !c.crashed && c.pos < |s| {
      var a := env(c.steps);
      var n := Step(mode, a, s, lo, c);
      DrainGrows(mode, env, s, lo, n);
      StepLo(mode, a, s, lo, down, c);
      StepIsSound(mode, a, s, lo, c);
      LosslessLowers(mode, env, s, lo, down, n);
    }
  }

  /** Events about the bytes of s cannot reach across a later boundary. */
  lemma {:induction false} PastIsUnbroken(mode: Rewind, s: seq<byte>, c: Config, from: nat, chunks: seq<seq<byte>>)
    requires Sound(s, c) && |s| <= from
    ensures Unbroken(mode, c.events, from, chunks)
    ensures Clears(mode, c.events, from)
    decreases |chunks|
  {
    if chunks != [] {
      PastIsUnbroken(mode, s, c, from + |chunks[0]|, chunks[1..]);
    }
  }

  ghost predicate SplitAgrees(mode: Rewind, env: nat -> Answers, s: seq<byte>, chunks: seq<seq<byte>>, c: Config)
    requires c.pos <= |s| && (c.crashed || c.pos == |s|)
  {
    var whole := Drain(mode, env, s + Joined(chunks), 0, c);
    && (!Run(mode, env, s, chunks, c).lossy <==> Unbroken(mode, whole.events, |s|, chunks))
    && (!Run(mode, env, s, chunks, c).lossy ==> Run(mode, env, s, chunks, c) == whole)
  }

  /** If draining the first chunk loses nothing, the question passes on to the remaining chunks. */
  lemma SplitStep(mode: Rewind, env: nat -> Answers, s: seq<byte>, h: seq<byte>, t: seq<byte>, c: Config)
    requires c.pos == |s| && !c.crashed && !c.lossy && Sound(s, c)
    requires var c1 := Drain(mode, env, s + h, |s|, c);
             || Clears(mode, Drain(mode, env, s + h + t, 0, c).events, |s|)
             || (!c1.lossy && Clears(mode, Drain(mode, env, s + h + t, 0, c1).events, |s|))
    ensures var c1 := Drain(mode, env, s + h, |s|, c);
            && !c1.lossy && |s| <= c1.pos <= |s + h|
            && Drain(mode, env, s + h + t, 0, c1) == Drain(mode, env, s + h + t, 0, c)
            && Clears(mode, Drain(mode, env, s + h + t, 0, c).events, |s|)
  {
    var c1 := Drain(mode, env, s + h, |s|, c);
    var lo := |s|;
    var full := s + h + t;
    assert full == s + (h + t);
    SoundExtends(s, h + t, c);
    SoundExtends(s, h, c);
    DrainIsSound(mode, env, s + h, lo, c);
    SoundExtends(s + h, t, c1);
    PastIsUnbroken(mode, s, c, lo, []);
    DrainGrows(mode, env, s + h, lo, c);
    if Clears(mode, Drain(mode, env, full, 0, c).events, lo) {
      LoIrrelevant(mode, env, full, lo, c);
      DrainPrefix(mode, env, s + h, t, lo, c);
      LosslessLowers(mode, env, s + h, lo, 0, c);
      LosslessLowers(mode, env, full, lo, 0, c1);
    } else {
      LoIrrelevant(mode, env, full, lo, c1);
      DrainPrefix(mode, env, s + h, t, lo, c);
      LosslessLowers(mode, env, full, lo, 0, c);
    }
  }

  /** What the later chunks do not reach across, they do not reach across the first boundary either. */
  lemma ClearsEarlier(mode: Rewind, env: nat -> Answers, s: seq<byte>, h: seq<byte>, chunks: seq<seq<byte>>, c: Config)
    requires c.pos == |s| && !c.crashed && Sound(s, c) && !Drain(mode, env, s + h, |s|, c).lossy
    requires var c1 := Drain(mode, env, s + h, |s|, c);
             Unbroken(mode, Drain(mode, env, s + h + Joined(chunks), 0, c1).events, |s + h|, chunks)
    ensures var c1 := Drain(mode, env, s + h, |s|, c);
            Clears(mode, Drain(mode, env, s + h + Joined(chunks), 0, c1).events, |s|)
  {
    var c1 := Drain(mode, env, s + h, |s|, c);
    var full := s + h + Joined(chunks);
    SoundExtends(s, h, c);
    PastIsUnbroken(mode, s, c, |s|, []);
    LosslessLowers(mode, env, s + h, |s|, 0, c);
    DrainIsSound(mode, env, s + h, |s|, c);
    if chunks != [] && !c1.crashed {
      SoundExtends(s + h, Joined(chunks), c1);
      PastIsUnbroken(mode, s + h, c1, |s + h|, []);
      LoIrrelevant(mode, env, full, |s + h|, c1);
      LosslessLowers(mode, env, full, |s + h|, |s|, c1);
      LosslessLowers(mode, env, full, |s|, 0, c1);
    }
  }

  lemma RunStep(mode: Rewind, env: nat -> Answers, s: seq<byte>, chunks: seq<seq<byte>>, c: Config)
    requires c.pos == |s| && !c.crashed && chunks != []
    ensures var c1 := Drain(mode, env, s + chunks[0], |s|, c);
            Run(mode, env, s, chunks, c) == Run(mode, env, s + chunks[0], chunks[1..], c1)
  {
    hide Drain;
  }

  lemma UnbrokenStep(mode: Rewind, events: seq<Event>, from: nat, chunks: seq<seq<byte>>)
    requires chunks != []
    ensures Unbroken(mode, events, from, chunks)
       <==> Clears(mode, events, from) && Unbroken(mode, events, from + |chunks[0]|, chunks[1..])
  {
    hide Clears;
  }

  /** The claim for all chunks follows from the claim for those behind the first. */
  lemma SplitOnce(mode: Rewind, env: nat -> Answers, s: seq<byte>, chunks: seq<seq<byte>>, c: Config)
    requires c.pos == |s| && !c.crashed && !c.lossy && Sound(s, c) && chunks != []
    requires var c1 := Drain(mode, env, s + chunks[0], |s|, c);
             !c1.lossy ==> SplitAgrees(mode, env, s + chunks[0], chunks[1..], c1)
    ensures SplitAgrees(mode, env, s, chunks, c)
  {
    hide Sound, Drain, Run, Unbroken, Clears, Joined;
    var (h, later) := (chunks[0], chunks[1..]);
    var (t, c1) := (Joined(later), Drain(mode, env, s + h, |s|, c));
    JoinedStep(s, chunks);
    RunStep(mode, env, s, chunks, c);
    RunKeepsLoss(mode, env, s + h, later, c1);
    UnbrokenStep(mode, Drain(mode, env, s + h + t, 0, c).events, |s|, chunks);
    if !Run(mode, env, s, chunks, c).lossy {
      ClearsEarlier(mode, env, s, h, later, c);
      SplitStep(mode, env, s, h, t, c);
    } else if Unbroken(mode, Drain(mode, env, s + h + t, 0, c).events, |s|, chunks) {
      SplitStep(mode, env, s, h, t, c);
      assert false;
    }
  }

  lemma JoinedStep(s: seq<byte>, chunks: seq<seq<byte>>)
    requires chunks != []
    ensures s + Joined(chunks) == s + chunks[0] + Joined(chunks[1..])
  {
  }

  lemma NothingSplit(mode: Rewind, env: nat -> Answers, s: seq<byte>, chunks: seq<seq<byte>>, c: Config)
    requires c.pos <= |s| && (c.crashed || c.pos == |s|) && !c.lossy && Sound(s, c)
    requires chunks == [] || c.crashed
    ensures SplitAgrees(mode, env, s, chunks, c)
  {
    PastIsUnbroken(mode, s, c, |s|, chunks);
    hide Sound;
    assert s + Joined([]) == s;
  }

  lemma {:induction false} SplitFrom(mode: Rewind, env: nat -> Answers, s: seq<byte>, chunks: seq<seq<byte>>, c: Config)
    requires c.pos <= |s| && (c.crashed || c.pos == |s|) && !c.lossy && Sound(s, c)
    ensures SplitAgrees(mode, env, s, chunks, c)
    decreases |chunks|
  {
    hide Sound, Drain, SplitAgrees;
    if chunks == [] || c.crashed {
      NothingSplit(mode, env, s, chunks, c);
    } else {
      var c1 := Drain(mode, env, s + chunks[0], |s|, c);
      SoundExtends(s, chunks[0], c);
      DrainIsSound(mode, env, s + chunks[0], |s|, c);
      if !c1.lossy {
        SplitFrom(mode, env, s + chunks[0], chunks[1..], c1);
      }
      SplitOnce(mode, env, s, chunks, c);
    }
  }

  /** Chunk independence, for every allocator and queue behaviour: calling the parser chunk by chunk loses
      nothing exactly when no rejection of the whole-stream parse reaches back across the start of the chunk
      it is decided in, and then every event and the final parser state are those of the whole stream. */
  lemma ChunkIndependence(mode: Rewind, env: nat -> Answers, chunks: seq<seq<byte>>)
    ensures var whole := Drain(mode, env, Joined(chunks), 0, INITIAL);
            var run := Run(mode, env, [], chunks, INITIAL);
            && (!run.lossy <==> Unbroken(mode, whole.events, 0, chunks))
            && (!run.lossy ==> run == whole)
  {
    InitialIsSound([]);
    assert [] + Joined(chunks) == Joined(chunks);
    SplitFrom(mode, env, [], chunks, INITIAL);
  }

  /** Running one more chunk is one more drain, so a session of calls builds up Run call by call. */
  lemma {:induction false} RunAppend(mode: Rewind, env: nat -> Answers, s: seq<byte>, chunks: seq<seq<byte>>,
      last: seq<byte>, c: Config)
    requires c.pos <= |s| && (c.crashed || c.pos == |s|)
    ensures var r := Run(mode, env, s, chunks, c);
            var seen := s + Joined(chunks);
            && r.pos <= |seen| && (r.crashed || r.pos == |seen|)
            && Joined(chunks + [last]) == Joined(chunks) + last
            && Run(mode, env, s, chunks + [last], c)
               == if r.crashed then r else Drain(mode, env, seen + last, |seen|, r)
    decreases |chunks|
  {
    if chunks == [] {
      assert [last][1..] == [];
      assert [] + [last] == [last] && s + [] == s;
      assert last + [] == last && [] + last == last;
      if !c.crashed {
        var r := Drain(mode, env, s + last, |s|, c);
        assert Run(mode, env, s + last, [], r) == r;
      }
    } else {
      var h := chunks[0];
      assert (chunks + [last])[1..] == chunks[1..] + [last];
      assert s + h + Joined(chunks[1..]) == s + Joined(chunks);
      assert h + (Joined(chunks[1..]) + last) == Joined(chunks) + last;
      if c.crashed {
        RunAppend(mode, env, s + h, chunks[1..], last, c);
      } else {
        RunAppend(mode, env, s + h, chunks[1..], last, Drain(mode, env, s + h, |s|, c));
      }
    }
  }

  /** A rejection within the first six bytes of a chunk ends the call as written: nothing else in the chunk
      is looked at. */
  lemma EarlyRejectionDropsChunk(env: nat -> Answers, s: seq<byte>, lo: nat, c: Config)
    requires lo <= c.pos < lo + 6 && Completes(s, c) && !WellFormed(s[Start(c)..c.pos + 1]) && !c.crashed
    ensures var r := Drain(AsWritten, env, s, lo, c);
            r.lossy && r.events == c.events + [Reject(Start(c), s[Start(c)..c.pos + 1])] && r.pos == |s|
  {
    StepDecides(AsWritten, env(c.steps), s, lo, c);
    var n := Step(AsWritten, env(c.steps), s, lo, c);
    assert Drain(AsWritten, env, s, lo, n) == n;
  }
}
