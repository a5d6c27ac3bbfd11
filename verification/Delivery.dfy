/** What reaches the frame queue over whole runs. */
module Delivery {
  import opened Protocol
  import opened ParserMachine
  import opened ParserSafety
  import opened Scanner
  import opened Chunking

  function Handed(e: Event): seq<seq<byte>> {
    if e.Accept? && e.fate.Taken? && |e.frame| >= OVERHEAD then [Body(e.frame)] else []
  }

  /** The bodies handed to the frame queue, in order. */
  function Delivered(events: seq<Event>): seq<seq<byte>> {
    if events == [] then [] else Handed(events[0]) + Delivered(events[1..])
  }

  lemma {:induction false} DeliveredSplit(a: seq<Event>, b: seq<Event>)
    ensures Delivered(a + b) == Delivered(a) + Delivered(b)
  {
    hide Handed;
    if a == [] {
      assert a + b == b;
    } else {
      DeliveredSplit(a[1..], b);
      assert (a + b)[0] == a[0] && (a + b)[1..] == a[1..] + b;
    }
  }

  // ----- soundness of every run -----

  lemma {:induction false} RunIsSound(mode: Rewind, env: nat -> Answers, s: seq<byte>, chunks: seq<seq<byte>>,
      c: Config)
    requires c.pos <= |s| && (c.crashed || c.pos == |s|) && Sound(s, c)
    ensures Sound(s + Joined(chunks), Run(mode, env, s, chunks, c))
    decreases |chunks|
  {
    hide Sound, Drain;
    if chunks == [] || c.crashed {
      SoundExtends(s, Joined(chunks), c);
    } else {
      SoundExtends(s, chunks[0], c);
      DrainIsSound(mode, env, s + chunks[0], |s|, c);
      RunIsSound(mode, env, s + chunks[0], chunks[1..], Drain(mode, env, s + chunks[0], |s|, c));
      assert s + Joined(chunks) == s + chunks[0] + Joined(chunks[1..]);
    }
  }

  /** Whatever the bytes that reach the loop, the chunk boundaries, the rewinds they cut short and the answers of the
      allocator and the queue inside the loop: every event is about the stream segment it names and accepts it
      exactly if it is well formed; events come in stream order and nothing begins inside an accepted segment. (A
      chunk refused before it reaches the loop is the subject of LostChunks.) */
  lemma EventsAreSegments(mode: Rewind, env: nat -> Answers, chunks: seq<seq<byte>>, i: nat, j: nat)
    requires i <= j < |Run(mode, env, [], chunks, INITIAL).events|
    ensures var events := Run(mode, env, [], chunks, INITIAL).events;
            Genuine(Joined(chunks), events[i]) && (i < j ==> After(events[i]) <= events[j].start)
  {
    hide Joined, Run, Genuine;
    InitialIsSound([]);
    RunIsSound(mode, env, [], chunks, INITIAL);
    assert [] + Joined(chunks) == Joined(chunks);
    var events := Run(mode, env, [], chunks, INITIAL).events;
    assert events[i] in events;
  }

  // ----- exact delivery -----

  /** A stretch of line noise followed by one built frame. */
  datatype Piece = Piece(noise: seq<byte>, ctrl: byte, cmd: byte, payload: seq<byte>)

  function Wire(pieces: seq<Piece>, tail: seq<byte>): seq<byte> {
    if pieces == [] then tail
    else pieces[0].noise + Frame(pieces[0].ctrl, pieces[0].cmd, pieces[0].payload) + Wire(pieces[1..], tail)
  }

  function Bodies(pieces: seq<Piece>): seq<seq<byte>> {
    if pieces == [] then []
    else [[pieces[0].ctrl, pieces[0].cmd] + pieces[0].payload] + Bodies(pieces[1..])
  }

  predicate HeaderAt(s: seq<byte>, i: nat)
    requires i < |s|
  {
    s[i] == HEADER1 && i + 1 < |s| && s[i + 1] == HEADER2
  }

  /** No two neighbours look like a header. A lone 53 at the end is allowed. */
  predicate Quiet(noise: seq<byte>) {
    forall i :: 0 <= i < |noise| ==> !HeaderAt(noise, i)
  }

  predicate Deliverable(pieces: seq<Piece>, tail: seq<byte>) {
    Quiet(tail) && forall p :: p in pieces ==> Quiet(p.noise) && |p.payload| <= MAX_PAYLOAD
  }

  lemma {:induction false} ScanSkipsNoise(mode: Rewind, s: seq<byte>, p: nat, q: nat)
    requires p <= q <= |s|
    requires forall i :: p <= i < q ==> !Pending(s, i)
    ensures Scan(mode, s, p) == Scan(mode, s, q)
    decreases q - p
  {
    if p < q {
      assert !Pending(s, p);
      ScanSkipsNoise(mode, s, p + 1, q);
    }
  }

  lemma {:induction false} ScanIgnoresQuietTail(mode: Rewind, s: seq<byte>, p: nat)
    requires p <= |s| && forall i :: p <= i < |s| ==> !HeaderAt(s, i)
    ensures Scan(mode, s, p).events == []
    decreases |s| - p
  {
    if p < |s| {
      assert !HeaderAt(s, p);
      if !Pending(s, p) {
        ScanIgnoresQuietTail(mode, s, p + 1);
      }
    }
  }

  lemma AcceptedEvent(s: seq<byte>, p: nat, f: seq<byte>)
    requires WellFormed(f) && p + |f| <= |s| && s[p..p + |f|] == f
    ensures Complete(s, p) && EventAt(s, p) == Accept(p, f, Taken)
  {
    hide Sum;
    assert s[p] == f[0] && s[p + 1] == f[1];
    assert s[p..p + 6] == f[..6];
    assert LenField(s[p..p + 6]) == LenField(f);
  }

  /** A well-formed segment at p is accepted there. */
  lemma ScanAccepts(mode: Rewind, s: seq<byte>, p: nat, f: seq<byte>)
    requires WellFormed(f) && p + |f| <= |s| && s[p..p + |f|] == f
    ensures Scan(mode, s, p).events == [Accept(p, f, Taken)] + Scan(mode, s, p + |f|).events
  {
    hide Scan, Complete, EventAt, WellFormed;
    AcceptedEvent(s, p, f);
    ScanDecides(mode, s, p);
  }

  /** Noise up to q, then a frame: the scan delivers the frame's body and goes on behind it. */
  lemma ScanDeliversOne(mode: Rewind, s: seq<byte>, p: nat, q: nat, f: seq<byte>)
    requires p <= q <= |s| && (forall i :: p <= i < q ==> !Pending(s, i))
    requires q + |f| <= |s| && s[q..q + |f|] == f && WellFormed(f)
    ensures Scan(mode, s, p).events == [Accept(q, f, Taken)] + Scan(mode, s, q + |f|).events
  {
    hide Sum;
    ScanSkipsNoise(mode, s, p, q);
    ScanAccepts(mode, s, q, f);
  }

  ghost predicate Delivers(mode: Rewind, before: seq<byte>, pieces: seq<Piece>, tail: seq<byte>) {
    var events := Scan(mode, before + Wire(pieces, tail), |before|).events;
    Delivered(events) == Bodies(pieces) && forall e :: e in events ==> e.Accept?
  }

  lemma NoPieces(mode: Rewind, before: seq<byte>, tail: seq<byte>)
    requires Quiet(tail)
    ensures Delivers(mode, before, [], tail)
  {
    var s := before + tail;
    forall i | |before| <= i < |s| ensures !HeaderAt(s, i) {
      assert !HeaderAt(tail, i - |before|);
    }
    ScanIgnoresQuietTail(mode, s, |before|);
  }

  lemma OneMorePiece(mode: Rewind, before: seq<byte>, p: Piece, f: seq<byte>, pieces: seq<Piece>, tail: seq<byte>)
    requires Quiet(p.noise) && |p.payload| <= MAX_PAYLOAD && f == Frame(p.ctrl, p.cmd, p.payload)
    requires Delivers(mode, before + p.noise + f, pieces, tail)
    ensures Delivers(mode, before, [p] + pieces, tail)
  {
    BuiltFrameIsWellFormed(p.ctrl, p.cmd, p.payload);
    hide Scan, Frame, Head, Sum, LenField;
    var start := |before + p.noise|;
    var done := before + p.noise + f;
    var s := done + Wire(pieces, tail);
    NoiseBeforeFrame(before, p.noise, f, Wire(pieces, tail));
    assert s[start..start + |f|] == f;
    ScanDeliversOne(mode, s, |before|, start, f);
    assert ([p] + pieces)[1..] == pieces;
    assert s == before + Wire([p] + pieces, tail);
    var first := Accept(start, f, Taken);
    DeliveredSplit([first], Scan(mode, s, |done|).events);
    assert Delivered([first]) == [Body(f)];
  }

  lemma {:induction false} ScanDelivers(mode: Rewind, before: seq<byte>, pieces: seq<Piece>, tail: seq<byte>)
    requires Deliverable(pieces, tail)
    ensures Delivers(mode, before, pieces, tail)
    decreases |pieces|
  {
    if pieces == [] {
      NoPieces(mode, before, tail);
    } else {
      var p := pieces[0];
      var f := Frame(p.ctrl, p.cmd, p.payload);
      ScanDelivers(mode, before + p.noise + f, pieces[1..], tail);
      OneMorePiece(mode, before, p, f, pieces[1..], tail);
      assert [p] + pieces[1..] == pieces;
    }
  }

  lemma NoiseBeforeFrame(before: seq<byte>, noise: seq<byte>, f: seq<byte>, after: seq<byte>)
    requires Quiet(noise) && |f| > 0 && f[0] == HEADER1
    ensures var s := before + noise + f + after;
            forall i :: |before| <= i < |before| + |noise| ==> !Pending(s, i)
  {
    var s := before + noise + f + after;
    forall i | |before| <= i < |before| + |noise| ensures !Pending(s, i) {
      assert !HeaderAt(noise, i - |before|);
      assert s[i] == noise[i - |before|];
      if i + 1 < |before| + |noise| {
        assert s[i + 1] == noise[i + 1 - |before|];
      } else {
        assert s[i + 1] == f[0];
      }
    }
  }

  lemma {:induction false} AcceptsAreUnbroken(mode: Rewind, events: seq<Event>, from: nat, chunks: seq<seq<byte>>)
    requires forall e :: e in events ==> e.Accept?
    ensures Unbroken(mode, events, from, chunks)
    decreases |chunks|
  {
    if chunks != [] {
      AcceptsAreUnbroken(mode, events, from + |chunks[0]|, chunks[1..]);
    }
  }

  /** Exact delivery: frames separated by quiet noise are delivered completely, once, in order, however the
      stream is cut into calls, whatever header or footer bytes the payloads contain. */
  lemma ExactDelivery(mode: Rewind, env: nat -> Answers, pieces: seq<Piece>, tail: seq<byte>, chunks: seq<seq<byte>>)
    requires Benign(env) && Deliverable(pieces, tail)
    requires Joined(chunks) == Wire(pieces, tail)
    ensures var run := Run(mode, env, [], chunks, INITIAL);
            Delivered(run.events) == Bodies(pieces) && !run.lossy && !run.crashed
  {
    var s := Wire(pieces, tail);
    WholeStreamScans(mode, env, s);
    assert [] + s == s;
    ScanDelivers(mode, [], pieces, tail);
    AcceptsAreUnbroken(mode, Scan(mode, s, 0).events, 0, chunks);
    ChunkIndependence(mode, env, chunks);
  }

  lemma ScanOneFrame(mode: Rewind, f: seq<byte>)
    requires WellFormed(f)
    ensures Scan(mode, f, 0) == Scanned([Accept(0, f, Taken)], |f|)
  {
    assert f[0..|f|] == f;
    assert f[..6] == f[0..6];
    assert Complete(f, 0) && EventAt(f, 0) == Accept(0, f, Taken);
    assert Scan(mode, f, |f|) == Scanned([], |f|);
  }

  /** Round trip: a built frame, fed in any pieces, comes out as exactly what was built in, and the parser
      is idle again. */
  lemma BuildParseRoundTrip(mode: Rewind, env: nat -> Answers, ctrl: byte, cmd: byte, payload: seq<byte>,
      chunks: seq<seq<byte>>)
    requires Benign(env) && |payload| <= MAX_PAYLOAD
    requires Joined(chunks) == Frame(ctrl, cmd, payload)
    ensures var run := Run(mode, env, [], chunks, INITIAL);
            Delivered(run.events) == [[ctrl, cmd] + payload] && run.parser.built == [] && !run.lossy
  {
    var f := Frame(ctrl, cmd, payload);
    BuiltFrameIsWellFormed(ctrl, cmd, payload);
    ScanOneFrame(mode, f);
    WholeStreamScans(mode, env, f);
    AcceptsAreUnbroken(mode, [Accept(0, f, Taken)], 0, chunks);
    ChunkIndependence(mode, env, chunks);
    assert Delivered([Accept(0, f, Taken)]) == [Body(f)];
  }

  // ----- where the code as written falls short of its comments -----

  /** A false header that declares 9 payload bytes, a genuine frame where that payload would be, three zeros. */
  const DECOY: seq<byte> := [0x53, 0x59, 0, 0, 0, 9]
  const GENUINE: seq<byte> := [0x53, 0x59, 0x01, 0x01, 0, 0, 0xAE, 0x54, 0x43]
  const HIDDEN: seq<byte> := DECOY + GENUINE + [0, 0, 0]

  lemma HiddenDecision(mode: Rewind)
    ensures WellFormed(GENUINE) && |HIDDEN| == 18
    ensures Complete(HIDDEN, 0) && EventAt(HIDDEN, 0) == Reject(0, HIDDEN)
    ensures Scan(mode, HIDDEN, 0).events
         == [Reject(0, HIDDEN)] + Scan(mode, HIDDEN, if mode == AsWritten then 11 else 2).events
  {
    assert GENUINE == Frame(1, 1, []) by {
      assert Head(1, 1, 0) == GENUINE[..6];
      assert Head(1, 1, 0) + [] == GENUINE[..6];
      SumSplit([0x53, 0x59], [1, 1, 0, 0]);
      SumOf4(1, 1, 0, 0);
      SumOf2(0x53, 0x59);
      assert GENUINE[..6] == [0x53, 0x59] + [1, 1, 0, 0];
    }
    BuiltFrameIsWellFormed(1, 1, []);
    assert HIDDEN[0..6] == DECOY;
    assert HIDDEN[0..18] == HIDDEN;
  }

  lemma SumOf2(a: byte, b: byte)
    ensures Sum([a, b]) == a + b
  {
    assert [a, b][..1] == [a] && [a][..0] == [];
    assert Sum([a]) == Sum([]) + a;
  }

  lemma SumOf4(a: byte, b: byte, c: byte, d: byte)
    ensures Sum([a, b, c, d]) == a + b + c + d
  {
    assert [a, b, c, d] == [a, b] + [c, d];
    SumSplit([a, b], [c, d]);
    SumOf2(a, b);
    SumOf2(c, d);
  }

  /** The rewind as written can jump over a genuine frame that the commented rewind finds. */
  lemma RewindAsWrittenHidesAFrame()
    ensures FrameAt(HIDDEN, 6) && 6 < Scan(AsWritten, HIDDEN, 0).rest
    ensures !AcceptedAt(Scan(AsWritten, HIDDEN, 0).events, 6)
    ensures AcceptedAt(Scan(Intended, HIDDEN, 0).events, 6)
  {
    HiddenDecision(AsWritten);
    HiddenDecision(Intended);
    hide WellFormed;
    assert HIDDEN[6..12] == GENUINE[..6];
    assert HIDDEN[6..6 + |GENUINE|] == GENUINE;
    ScanBounds(AsWritten, HIDDEN, 0);
    FoundUnlessJumpedOver(AsWritten, HIDDEN, 0, 6);
    var r := Reject(0, HIDDEN);
    assert Scan(AsWritten, HIDDEN, 0).events[0] == r;
    assert Within(AsWritten, HIDDEN, 0, Scan(AsWritten, HIDDEN, 0).rest, r);
    assert r.start < 6 < Resume(AsWritten, r);
    IntendedFindsHidden();
  }

  lemma IntendedFindsHidden()
    ensures AcceptedAt(Scan(Intended, HIDDEN, 0).events, 6)
  {
    HiddenDecision(Intended);
    hide WellFormed;
    forall i | 2 <= i < 6 ensures !Pending(HIDDEN, i) {
      assert HIDDEN[i] == DECOY[i];
    }
    ScanSkipsNoise(Intended, HIDDEN, 2, 6);
    assert HIDDEN[6..6 + |GENUINE|] == GENUINE;
    ScanAccepts(Intended, HIDDEN, 6, GENUINE);
    var e := Accept(6, GENUINE, Taken);
    assert e == Scan(Intended, HIDDEN, 0).events[1];
    assert e in Scan(Intended, HIDDEN, 0).events && e.Accept? && e.start == 6;
  }

  /** Eight bytes of a frame whose last byte will be wrong, then that byte followed by a genuine frame. */
  const SPOILED: seq<byte> := [0x53, 0x59, 0, 0, 0, 0, 0, 0]

  lemma SpoiledIsPending(env: nat -> Answers)
    requires Benign(env)
    ensures var c := Drain(AsWritten, env, SPOILED, 0, INITIAL);
            c.parser.built == SPOILED && c.events == [] && Running(SPOILED, c) && c.pos == 8
  {
    hide Drain, Sound;
    WholeStreamScans(AsWritten, env, SPOILED);
    assert !Complete(SPOILED, 0) && Pending(SPOILED, 0);
    assert SPOILED[0..] == SPOILED;
    InitialIsSound(SPOILED);
    DrainIsSound(AsWritten, env, SPOILED, 0, INITIAL);
  }

  lemma OneCall(mode: Rewind, env: nat -> Answers, chunk: seq<byte>)
    ensures Run(mode, env, [], [chunk], INITIAL) == Drain(mode, env, chunk, 0, INITIAL)
  {
    var none: seq<seq<byte>> := [];
    assert [] + chunk == chunk && [chunk][1..] == none;
    var r := Drain(mode, env, chunk, 0, INITIAL);
    assert Run(mode, env, chunk, none, r) == r;
  }

  /** Two calls lose a frame that one call on the same bytes delivers. */
  lemma SplittingCanLoseAFrame(env: nat -> Answers)
    requires Benign(env)
    ensures Delivered(Run(AsWritten, env, [], [SPOILED, [0] + GENUINE], INITIAL).events) == []
    ensures Delivered(Run(AsWritten, env, [], [SPOILED + [0] + GENUINE], INITIAL).events) == [Body(GENUINE)]
  {
    SplitLoses(env);
    WholeDelivers(env);
  }

  lemma SecondCallRejects(env: nat -> Answers, s: seq<byte>, c: Config)
    requires Benign(env) && s == SPOILED + ([0] + GENUINE)
    requires c.parser.built == SPOILED && c.events == [] && c.pos == 8 && !c.crashed
    ensures Drain(AsWritten, env, s, 8, c).events == [Reject(0, s[0..9])]
  {
    hide Sum;
    assert s[0..9] == SPOILED + [0] && s[0..8] == SPOILED;
    EarlyRejectionDropsChunk(env, s, 8, c);
  }

  lemma SplitLoses(env: nat -> Answers)
    requires Benign(env)
    ensures Delivered(Run(AsWritten, env, [], [SPOILED, [0] + GENUINE], INITIAL).events) == []
  {
    var c := Drain(AsWritten, env, SPOILED, 0, INITIAL);
    var last := [0] + GENUINE;
    SpoiledIsPending(env);
    OneCall(AsWritten, env, SPOILED);
    RunAppend(AsWritten, env, [], [SPOILED], last, INITIAL);
    hide Run, Drain, Scan;
    assert [] + Joined([SPOILED]) == SPOILED by {
      assert SPOILED + [] == SPOILED;
    }
    SecondCallRejects(env, SPOILED + last, c);
    assert [SPOILED] + [last] == [SPOILED, last];
    assert Delivered([Reject(0, (SPOILED + last)[0..9])]) == [];
  }

  lemma WholeDelivers(env: nat -> Answers)
    requires Benign(env)
    ensures Delivered(Run(AsWritten, env, [], [SPOILED + [0] + GENUINE], INITIAL).events) == [Body(GENUINE)]
  {
    hide Run, Drain, Scan, Delivered;
    var s: seq<byte> := SPOILED + [0] + GENUINE;
    OneCall(AsWritten, env, s);
    WholeStreamScans(AsWritten, env, s);
    WholeScan();
    OneAcceptDelivers(Reject(0, s[0..9]), Accept(9, GENUINE, Taken));
  }

  lemma OneAcceptDelivers(bad: Event, good: Event)
    requires bad.Reject? && good.Accept? && good.fate.Taken? && |good.frame| >= OVERHEAD
    ensures Delivered([bad, good]) == [Body(good.frame)]
  {
    DeliveredSplit([bad], [good]);
    assert [bad] + [good] == [bad, good];
    assert Delivered([bad]) == [] && Delivered([good]) == [Body(good.frame)];
  }

  lemma SpoiledIsRejected(s: seq<byte>)
    requires s == SPOILED + [0] + GENUINE
    ensures Complete(s, 0) && EventAt(s, 0) == Reject(0, s[0..9])
    ensures Scan(AsWritten, s, 0).events == [Reject(0, s[0..9])] + Scan(AsWritten, s, 2).events
  {
    hide Sum;
    assert s[0..6] == SPOILED[..6];
    hide Scan;
    ScanDecides(AsWritten, s, 0);
  }

  lemma WholeScan()
    ensures var s: seq<byte> := SPOILED + [0] + GENUINE;
            Scan(AsWritten, s, 0).events == [Reject(0, s[0..9]), Accept(9, GENUINE, Taken)]
  {
    var s: seq<byte> := SPOILED + [0] + GENUINE;
    HiddenDecision(AsWritten);
    hide WellFormed;
    SpoiledIsRejected(s);
    forall i | 2 <= i < 9 ensures !Pending(s, i) {
    }
    ScanSkipsNoise(AsWritten, s, 2, 9);
    assert s[9..9 + |GENUINE|] == GENUINE;
    ScanAccepts(AsWritten, s, 9, GENUINE);
    assert Scan(AsWritten, s, 18) == Scanned([], 18);
  }
}
