/** Chunks read from the UART and dropped because the core got no memory to save them: when an event polled is
    nevertheless the decoding of bytes that followed one another on the UART. */
module LostChunks {
  import opened Protocol
  import opened ParserMachine
  import opened ParserSafety
  import opened Decoder
  import opened EventQueue
  import opened EndToEnd
  import opened Delivery

  // ----- where the bytes parsed were read -----

  /** Bytes k - 1 and k of the stream were read in this order, and next to each other unless a chunk between them is
      missing. */
  predicate Linked(i: Intake, k: nat)
    requires 0 < k < |i.origin|
  {
    i.origin[k - 1] < i.origin[k] && (i.origin[k] == i.origin[k - 1] + 1 <==> k !in i.gaps)
  }

  /** The last byte parsed is the last one read unless a chunk has been dropped since. */
  predicate LinkedToEnd(i: Intake) {
    i.origin != [] ==>
      var last := i.origin[|i.origin| - 1];
      last < |i.read| && (last + 1 == |i.read| <==> |i.origin| !in i.gaps)
  }

  /** How the bytes parsed (stream) relate to the bytes read. */
  ghost predicate Traced(stream: seq<byte>, i: Intake) {
    && |i.origin| == |stream| && LinkedToEnd(i)
    && (forall k :: 0 <= k < |stream| ==> i.origin[k] < |i.read| && i.read[i.origin[k]] == stream[k])
    && (forall k :: 0 < k < |stream| ==> Linked(i, k))
    && (forall g :: g in i.gaps ==> g <= |stream|)
    && (if i.gaps == {} then i.read == stream else |i.read| > |stream|)
  }

  lemma TracedInFull(stream: seq<byte>, i: Intake)
    requires Traced(stream, i)
    ensures |i.origin| == |stream|
  {
  }

  lemma KeepIsTraced(stream: seq<byte>, i: Intake, bytes: seq<byte>)
    requires Traced(stream, i)
    ensures Traced(stream + bytes, Keep(i, bytes))
  {
    var (n, all) := (Keep(i, bytes), stream + bytes);
    forall k | 0 < k < |all| ensures Linked(n, k) {
      if k < |stream| {
        assert Linked(i, k);
      }
    }
    if bytes == [] {
      assert n.origin == i.origin && n.read == i.read;
    }
  }

  lemma LoseIsTraced(stream: seq<byte>, i: Intake, bytes: seq<byte>)
    requires Traced(stream, i) && bytes != []
    ensures Traced(stream, Lose(i, bytes))
  {
    var n := Lose(i, bytes);
    forall k | 0 < k < |stream| ensures Linked(n, k) {
      assert Linked(i, k);
    }
  }

  lemma DoIsTraced(s: System, a: Action)
    requires s.reports.queued <= |s.reports.pushed| && s.responses.queued <= |s.responses.pushed|
    requires Traced(s.stream, s.intake)
    ensures Traced(Do(s, a).stream, Do(s, a).intake)
  {
    hide Traced, Keep, Lose, Step;
    if a.Chunk? {
      KeepIsTraced(s.stream, s.intake, a.bytes);
      if a.bytes != [] {
        LoseIsTraced(s.stream, s.intake, a.bytes);
      }
    }
  }

  lemma {:induction false} RunIsTraced(s: System, actions: seq<Action>)
    requires s.reports.queued <= |s.reports.pushed| && s.responses.queued <= |s.responses.pushed|
    requires Traced(s.stream, s.intake)
    ensures Traced(RunSystem(s, actions).stream, RunSystem(s, actions).intake)
    decreases |actions|
  {
    hide Do, Traced;
    if actions != [] {
      DoIsTraced(s, actions[0]);
      RunIsTraced(Do(s, actions[0]), actions[1..]);
    }
  }

  /** In every interleaving each byte parsed is the byte read at its origin, in order; and the bytes parsed are the
      bytes read exactly if no chunk was dropped. */
  lemma BytesParsedAreBytesRead(actions: seq<Action>)
    ensures var s := RunSystem(START, actions);
            Traced(s.stream, s.intake) && (s.stream == s.intake.read <==> s.intake.gaps == {})
  {
    RunIsTraced(START, actions);
  }

  // ----- which chunks are dropped -----

  /** The length of the longest chunk of this run that reached the parser: by as much did the stream grow. */
  function LongestKept(s: System, actions: seq<Action>): nat
    requires s.reports.queued <= |s.reports.pushed| && s.responses.queued <= |s.responses.pushed|
    decreases |actions|
  {
    if actions == [] then 0
    else
      var z := Do(s, actions[0]);
      var now := if |z.stream| > |s.stream| then |z.stream| - |s.stream| else 0;
      var later := LongestKept(z, actions[1..]);
      if now > later then now else later
  }

  lemma DoKeepsLongest(s: System, a: Action)
    requires s.reports.queued <= |s.reports.pushed| && s.responses.queued <= |s.responses.pushed|
    ensures var z := Do(s, a);
            && |z.stream| >= |s.stream|
            && z.intake.saving == (if |z.stream| - |s.stream| > s.intake.saving then |z.stream| - |s.stream|
                                   else s.intake.saving)
  {
    hide Step;
  }

  lemma {:induction false} SavingIsLongestKept(s: System, actions: seq<Action>)
    requires s.reports.queued <= |s.reports.pushed| && s.responses.queued <= |s.responses.pushed|
    ensures RunSystem(s, actions).intake.saving
         == if LongestKept(s, actions) > s.intake.saving then LongestKept(s, actions) else s.intake.saving
    decreases |actions|
  {
    hide Do;
    if actions != [] {
      DoKeepsLongest(s, actions[0]);
      SavingIsLongestKept(Do(s, actions[0]), actions[1..]);
    }
  }

  /** In every interleaving: when the rx task has parsed what it had and reads on, the chunk is dropped if and only if
      it is longer than every chunk kept before and there is no memory for it; otherwise it reaches the parser whole. */
  lemma DroppedIffLongestYetAndNoRoom(actions: seq<Action>, bytes: seq<byte>, room: bool)
    requires var s := RunSystem(START, actions); !s.core.crashed && s.core.pos == |s.stream|
    ensures var s := RunSystem(START, actions);
            var z := Do(s, Chunk(bytes, room));
            && z.intake.read == s.intake.read + bytes && z.core == s.core
            && z.stream == s.stream + if |bytes| > LongestKept(START, actions) && !room then [] else bytes
  {
    SavingIsLongestKept(START, actions);
    hide RunSystem, LongestKept;
  }

  // ----- segments in one piece -----

  /** A chunk is missing strictly inside the segment from b up to e. */
  ghost predicate Torn(i: Intake, b: nat, e: nat) {
    exists g :: g in i.gaps && b < g < e
  }

  /** The segment from b up to e was read as e - b consecutive bytes. */
  predicate InOnePiece(i: Intake, b: nat, e: nat)
    requires b < e <= |i.origin|
  {
    i.origin[e - 1] == i.origin[b] + (e - 1 - b)
  }

  lemma {:induction false} OriginsSpread(stream: seq<byte>, i: Intake, b: nat, e: nat)
    requires Traced(stream, i) && b < e <= |stream|
    ensures i.origin[e - 1] >= i.origin[b] + (e - 1 - b) && (InOnePiece(i, b, e) <==> !Torn(i, b, e))
    decreases e
  {
    if b + 1 < e {
      OriginsSpread(stream, i, b, e - 1);
      assert Linked(i, e - 1);
      if Torn(i, b, e) {
        var g :| g in i.gaps && b < g < e;
        assert g == e - 1 || b < g < e - 1;
      }
    }
  }

  lemma PieceIsUartSegment(stream: seq<byte>, i: Intake, b: nat, e: nat)
    requires Traced(stream, i) && b < e <= |stream| && InOnePiece(i, b, e)
    ensures i.origin[b] + (e - b) <= |i.read| && i.read[i.origin[b]..i.origin[b] + (e - b)] == stream[b..e]
  {
    hide Torn;
    forall k | b <= k < e ensures i.origin[k] == i.origin[b] + (k - b) {
      OriginsSpread(stream, i, b, k + 1);
      OriginsSpread(stream, i, k, e);
    }
  }

  /** A segment of the bytes parsed is a segment of the bytes read if and only if no chunk is missing inside it. */
  lemma UartSegmentIffNotTorn(stream: seq<byte>, i: Intake, b: nat, e: nat)
    requires Traced(stream, i) && b < e <= |stream|
    ensures InOnePiece(i, b, e) <==> !Torn(i, b, e)
    ensures InOnePiece(i, b, e) ==>
              i.origin[b] + (e - b) <= |i.read| && i.read[i.origin[b]..i.origin[b] + (e - b)] == stream[b..e]
  {
    hide Traced, Torn;
    TracedInFull(stream, i);
    OriginsSpread(stream, i, b, e);
    if InOnePiece(i, b, e) {
      PieceIsUartSegment(stream, i, b, e);
    }
  }

  // ----- what was polled, seen from the UART -----

  /** The frame behind item i stood on the UART byte next to byte exactly if no chunk is missing inside it; and then
      what was read there is a frame that decodes to i. */
  ghost predicate FromTheUart(s: System, i: Item) {
    && i.tag < |s.core.events| && Begins(s.core, i) < Ends(s.core, i) <= |s.intake.origin|
    && var (b, e) := (Begins(s.core, i), Ends(s.core, i));
       && (InOnePiece(s.intake, b, e) <==> !Torn(s.intake, b, e))
       && (InOnePiece(s.intake, b, e) ==> ReadAsFrame(s.intake, s.intake.origin[b], e - b, i.event))
  }

  predicate ReadAsFrame(i: Intake, at: nat, len: nat, event: AppEvent) {
    at + len <= |i.read| && WellFormed(i.read[at..at + len]) && Decode(Body(i.read[at..at + len])) == [event]
  }

  /** What was read for a came before what was read for b. */
  ghost predicate ReadBefore(s: System, a: Item, b: Item) {
    && a.tag < |s.core.events| && b.tag < |s.core.events|
    && 0 < Ends(s.core, a) <= |s.intake.origin| && Begins(s.core, b) < |s.intake.origin|
    && s.intake.origin[Ends(s.core, a) - 1] < s.intake.origin[Begins(s.core, b)]
  }

  ghost predicate TruthfulOnTheUart(s: System, w: Window<Item>) {
    && (forall k :: 0 <= k < |w.polled| ==> w.polled[k] < |w.pushed| && FromTheUart(s, Polled(w, k)))
    && (forall j, k :: 0 <= j < k < |w.polled| ==> ReadBefore(s, Polled(w, j), Polled(w, k)))
  }

  lemma WireIsUart(s: System, i: Item)
    requires Traced(s.stream, s.intake) && FromTheWire(s.stream, s.core, i)
    ensures FromTheUart(s, i)
  {
    hide Traced, Torn, InOnePiece, Decode, Body, LenField, Sum;
    TracedInFull(s.stream, s.intake);
    UartSegmentIffNotTorn(s.stream, s.intake, Begins(s.core, i), Ends(s.core, i));
  }

  lemma BeforeIsReadBefore(s: System, a: Item, b: Item)
    requires Traced(s.stream, s.intake) && FromTheWire(s.stream, s.core, a) && FromTheWire(s.stream, s.core, b)
    requires Before(s.core, a, b)
    ensures ReadBefore(s, a, b)
  {
    hide Traced, Torn, InOnePiece, Decode, Body, LenField, Sum;
    TracedInFull(s.stream, s.intake);
    OriginsSpread(s.stream, s.intake, Ends(s.core, a) - 1, Begins(s.core, b) + 1);
  }

  lemma TruthfulPollsOnTheUart(s: System, w: Window<Item>)
    requires Traced(s.stream, s.intake) && TruthfulPolls(s, w)
    ensures TruthfulOnTheUart(s, w)
  {
    hide Traced, FromTheWire, FromTheUart, ReadBefore, Before;
    forall k | 0 <= k < |w.polled| ensures FromTheUart(s, Polled(w, k)) {
      WireIsUart(s, Polled(w, k));
    }
    forall j, k | 0 <= j < k < |w.polled| ensures ReadBefore(s, Polled(w, j), Polled(w, k)) {
      BeforeIsReadBefore(s, Polled(w, j), Polled(w, k));
    }
  }

  /** In every interleaving, whatever is refused: the events polled are the decodings of frames whose bytes were read
      from the UART in this order, all of one frame before all of the next; and such a frame stood on the UART, byte
      next to byte, if and only if no dropped chunk falls strictly inside it. */
  lemma PolledEventsOnTheUart(actions: seq<Action>)
    ensures var s := RunSystem(START, actions);
            TruthfulOnTheUart(s, s.reports) && TruthfulOnTheUart(s, s.responses)
  {
    hide RunSystem, TruthfulPolls, TruthfulOnTheUart, Traced;
    var s := RunSystem(START, actions);
    PolledEventsComeFromTheWire(actions);
    BytesParsedAreBytesRead(actions);
    TruthfulPollsOnTheUart(s, s.reports);
    TruthfulPollsOnTheUart(s, s.responses);
  }

  // ----- refusals that harm nothing -----

  /** The next action drops a chunk. */
  predicate Drops(s: System, a: Action) {
    a.Chunk? && !s.core.crashed && s.core.pos == |s.stream| && |a.bytes| > s.intake.saving && !a.room
  }

  /** Chunks are dropped only while the parser is not inside a candidate. */
  ghost predicate DropsWhileIdle(s: System, actions: seq<Action>)
    requires s.reports.queued <= |s.reports.pushed| && s.responses.queued <= |s.responses.pushed|
    decreases |actions|
  {
    actions == []
    || ((Drops(s, actions[0]) ==> s.core.parser.built == []) && DropsWhileIdle(Do(s, actions[0]), actions[1..]))
  }

  ghost predicate WholeEvent(i: Intake, e: Event) {
    e.Accept? ==> !Torn(i, e.start, e.start + |e.frame|)
  }

  /** No accepted frame has a gap inside, nor can the candidate in building get one from the chunks dropped so far. */
  ghost predicate Untorn(s: System) {
    && (forall g :: g in s.intake.gaps ==> g <= Start(s.core))
    && (forall e :: e in s.core.events ==> WholeEvent(s.intake, e))
  }

  lemma ParseStaysUntorn(s: System, a: Answers)
    requires Sound(s.stream, s.core) && Untorn(s) && s.lo <= s.core.pos < |s.stream|
    ensures Untorn(DoParse(s, a))
  {
    var n := Step(AsWritten, a, s.stream, s.lo, s.core);
    if Completes(s.stream, s.core) {
      StepDecides(AsWritten, a, s.stream, s.lo, s.core);
    } else {
      StepMoves(AsWritten, a, s.stream, s.lo, s.core);
    }
    hide Step, Sound, WellFormed, LenField;
  }

  lemma IdleDropStaysUntorn(s: System, bytes: seq<byte>)
    requires Sound(s.stream, s.core) && Untorn(s) && s.core.pos == |s.stream| && |s.intake.origin| == |s.stream|
    requires s.core.parser.built == []
    ensures Untorn(s.(intake := Lose(s.intake, bytes)))
  {
    hide WellFormed, LenField;
    forall e | e in s.core.events ensures WholeEvent(Lose(s.intake, bytes), e) {
      assert WholeEvent(s.intake, e);
      assert After(e) <= Start(s.core);
    }
  }

  lemma DoStaysUntorn(s: System, a: Action)
    requires Good(s) && Traced(s.stream, s.intake) && Untorn(s) && (Drops(s, a) ==> s.core.parser.built == [])
    ensures Untorn(Do(s, a))
  {
    TracedInFull(s.stream, s.intake);
    hide Sound, Traced, Untorn, Step, GoodTrail, GoodQueues, Lose, Keep, DoTake, DoHandle;
    if a.Parse? && s.lo <= s.core.pos < |s.stream| {
      ParseStaysUntorn(s, Answers(a.grow, a.frame, Queueable(s), a.restart));
    } else if Drops(s, a) {
      IdleDropStaysUntorn(s, a.bytes);
    } else {
      NothingDropped(s, a);
      SameGapsSameEvents(s, Do(s, a));
    }
  }

  lemma NothingDropped(s: System, a: Action)
    requires s.reports.queued <= |s.reports.pushed| && s.responses.queued <= |s.responses.pushed|
    requires !Drops(s, a) && (a.Parse? ==> s.core.pos < s.lo || s.core.pos >= |s.stream|)
    ensures Do(s, a).intake.gaps == s.intake.gaps && Do(s, a).core == s.core
  {
    hide DoParse;
  }

  lemma SameGapsSameEvents(s: System, n: System)
    requires Untorn(s) && n.intake.gaps == s.intake.gaps && n.core == s.core
    ensures Untorn(n)
  {
    forall e | e in n.core.events ensures WholeEvent(n.intake, e) {
      assert WholeEvent(s.intake, e);
    }
  }

  lemma {:induction false} RunStaysUntorn(s: System, actions: seq<Action>)
    requires Good(s) && Traced(s.stream, s.intake) && Untorn(s) && DropsWhileIdle(s, actions)
    ensures Untorn(RunSystem(s, actions))
    decreases |actions|
  {
    hide Sound, GoodTrail, Decoded, Traced, Untorn, Drops, Do;
    if actions != [] {
      DoIsGood(s, actions[0]);
      DoIsTraced(s, actions[0]);
      DoStaysUntorn(s, actions[0]);
      RunStaysUntorn(Do(s, actions[0]), actions[1..]);
    }
  }

  lemma IdleRunIsUntorn(actions: seq<Action>)
    requires DropsWhileIdle(START, actions)
    ensures Untorn(RunSystem(START, actions))
  {
    hide RunSystem, DropsWhileIdle, Sound, GoodTrail, GoodQueues;
    StartIsGood();
    RunStaysUntorn(START, actions);
  }

  /** Item i is the decoding of a frame that stood on the UART byte next to byte. */
  ghost predicate WholeOnTheUart(s: System, i: Item) {
    FromTheUart(s, i) && InOnePiece(s.intake, Begins(s.core, i), Ends(s.core, i))
  }

  lemma PolledIsWhole(s: System, w: Window<Item>, k: nat)
    requires Untorn(s) && Faithful(s.core, Trail(s), w) && k < |w.polled| && w.polled[k] < |w.pushed|
    requires FromTheUart(s, Polled(w, k))
    ensures WholeOnTheUart(s, Polled(w, k))
  {
    hide Accounted, Decode, ReadAsFrame;
    var i := Polled(w, k);
    assert Decoded(s.core, Trail(s), i);
    assert WholeEvent(s.intake, s.core.events[i.tag]);
  }

  lemma PollsAreWhole(s: System, w: Window<Item>)
    requires Untorn(s) && Faithful(s.core, Trail(s), w) && TruthfulOnTheUart(s, w)
    ensures forall k :: 0 <= k < |w.polled| ==> w.polled[k] < |w.pushed| && WholeOnTheUart(s, Polled(w, k))
  {
    hide Untorn, Faithful, FromTheUart, WholeOnTheUart, ReadBefore;
    forall k | 0 <= k < |w.polled| ensures WholeOnTheUart(s, Polled(w, k)) {
      PolledIsWhole(s, w, k);
    }
  }

  /** A chunk dropped while the parser is not inside a candidate harms nothing: if all are, every event polled is the
      decoding of a frame that stood on the UART. */
  lemma IdleDropsHarmNothing(actions: seq<Action>)
    requires DropsWhileIdle(START, actions)
    ensures var s := RunSystem(START, actions);
            && (forall k :: 0 <= k < |s.reports.polled| ==>
                  s.reports.polled[k] < |s.reports.pushed| && WholeOnTheUart(s, Polled(s.reports, k)))
            && (forall k :: 0 <= k < |s.responses.polled| ==>
                  s.responses.polled[k] < |s.responses.pushed| && WholeOnTheUart(s, Polled(s.responses, k)))
  {
    hide RunSystem, DropsWhileIdle, Untorn, Sound, Trail, GoodTrail, Faithful, TruthfulOnTheUart, WholeOnTheUart;
    var s := RunSystem(START, actions);
    StartIsGood();
    RunIsGood(START, actions);
    IdleRunIsUntorn(actions);
    PolledEventsOnTheUart(actions);
    PollsAreWhole(s, s.reports);
    PollsAreWhole(s, s.responses);
  }

  // ----- a report that was never on the wire -----

  /** The first three bytes of a frame; four bytes of another chunk, too many for the three-byte saving buffer; and
      seven bytes that complete the first three. */
  const BEGUN: seq<byte> := [0x53, 0x59, 0x80]
  const MISSED: seq<byte> := [0x02, 0x02, 0x02, 0x02]
  const REST: seq<byte> := [0x01, 0x00, 0x01, 0x01, 0x2F, 0x54, 0x43]
  const FORGED: seq<byte> := BEGUN + REST
  const FORGED_BODY: seq<byte> := [0x80, 0x01, 0x01]

  const PARSE := Parse(true, true, true)

  function Parses(n: nat): seq<Action> {
    if n == 0 then [] else [PARSE] + Parses(n - 1)
  }

  lemma {:induction false} RunSystemAppend(s: System, first: seq<Action>, second: seq<Action>)
    requires s.reports.queued <= |s.reports.pushed| && s.responses.queued <= |s.responses.pushed|
    ensures RunSystem(s, first + second) == RunSystem(RunSystem(s, first), second)
    decreases |first|
  {
    hide Do;
    if first == [] {
      assert first + second == second;
    } else {
      assert (first + second)[0] == first[0] && (first + second)[1..] == first[1..] + second;
      RunSystemAppend(Do(s, first[0]), first[1..], second);
    }
  }

  lemma OneDo(s: System, a: Action)
    requires s.reports.queued <= |s.reports.pushed| && s.responses.queued <= |s.responses.pushed|
    ensures RunSystem(s, [a]) == Do(s, a)
  {
    hide Do;
    assert [a][1..] == [];
    assert RunSystem(Do(s, a), []) == Do(s, a);
  }

  lemma ThreeDos(s: System, a: Action, b: Action, c: Action)
    requires s.reports.queued <= |s.reports.pushed| && s.responses.queued <= |s.responses.pushed|
    ensures RunSystem(s, [a, b, c]) == Do(Do(Do(s, a), b), c)
  {
    hide Do;
    assert [a, b, c][1..] == [b, c];
    assert [b, c][1..] == [c];
    assert RunSystem(Do(s, a), [b, c]) == RunSystem(Do(Do(s, a), b), [c]);
    OneDo(Do(Do(s, a), b), c);
  }

  /** The first k bytes of the stream are in building. */
  function Mid(i: Intake, stream: seq<byte>, lo: nat, k: nat): System
    requires k <= |stream|
  {
    START.(intake := i, stream := stream, lo := lo,
           core := Config(k, Parser(stream[..k], true, STARTING_SIZE, 0), [], k, false, false))
  }

  lemma ParseMid(i: Intake, stream: seq<byte>, lo: nat, k: nat)
    requires stream <= FORGED && lo <= k < |stream| && k < 9
    ensures Do(Mid(i, stream, lo, k), PARSE) == Mid(i, stream, lo, k + 1)
  {
    hide WellFormed;
    var a := Answers(true, true, true, true);
    assert stream[..k] + [stream[k]] == stream[..k + 1];
    assert stream[k] == FORGED[k];
    assert forall j :: 0 <= j <= k ==> stream[..k + 1][j] == FORGED[j];
    var s := Mid(i, stream, lo, k);
    assert Step(AsWritten, a, stream, lo, s.core) == Mid(i, stream, lo, k + 1).core;
  }

  lemma {:induction false} ParsesMid(i: Intake, stream: seq<byte>, lo: nat, k: nat, n: nat)
    requires stream <= FORGED && lo <= k && k + n <= |stream| && k + n <= 9
    ensures RunSystem(Mid(i, stream, lo, k), Parses(n)) == Mid(i, stream, lo, k + n)
    decreases n
  {
    hide Do;
    if n > 0 {
      ParseMid(i, stream, lo, k);
      assert Parses(n)[1..] == Parses(n - 1);
      ParsesMid(i, stream, lo, k + 1, n - 1);
    }
  }

  lemma ForgedIsAFrame()
    ensures WellFormed(FORGED) && Body(FORGED) == FORGED_BODY
  {
    var covered: seq<byte> := [0x53, 0x59] + [0x80, 0x01, 0x00, 0x01] + [0x01];
    assert Head(0x80, 0x01, 1) + [1] == covered;
    SumSplit([0x53, 0x59] + [0x80, 0x01, 0x00, 0x01], [0x01]);
    SumSplit([0x53, 0x59], [0x80, 0x01, 0x00, 0x01]);
    SumOf2(0x53, 0x59);
    SumOf4(0x80, 0x01, 0x00, 0x01);
    assert [0x01][..0] == [];
    assert Sum(covered) == 0x12F;
    assert FORGED == Frame(0x80, 0x01, [1]);
    BuiltFrameIsWellFormed(0x80, 0x01, [1]);
  }

  const PRESENCE := Report(BLANK.(hasPresence := true, presence := 1))

  const FIRST := Keep(START.intake, BEGUN)
  const ALL := Keep(Lose(FIRST, MISSED), REST)

  const READS: seq<Action> := [Chunk(MISSED, false), Chunk(REST, true)]
  const POLLING: seq<Action> := [PARSE, Take(true), Handle(true), PollReport]
  const FORGING: seq<Action> := [Chunk(BEGUN, true)] + Parses(3) + READS + Parses(6) + POLLING

  lemma BegunIsRead()
    ensures RunSystem(START, [Chunk(BEGUN, true)] + Parses(3)) == Mid(FIRST, BEGUN, 0, 3)
  {
    hide Parses, Step;
    RunSystemAppend(START, [Chunk(BEGUN, true)], Parses(3));
    OneDo(START, Chunk(BEGUN, true));
    assert BEGUN <= FORGED && START.stream + BEGUN == BEGUN && BEGUN[..0] == [];
    assert Do(START, Chunk(BEGUN, true)) == Mid(FIRST, BEGUN, 0, 0);
    ParsesMid(FIRST, BEGUN, 0, 0, 3);
  }

  lemma MissedIsDropped()
    ensures RunSystem(Mid(FIRST, BEGUN, 0, 3), READS) == Mid(ALL, FORGED, 3, 3)
  {
    hide Step;
    var s := Mid(FIRST, BEGUN, 0, 3);
    RunSystemAppend(s, [Chunk(MISSED, false)], [Chunk(REST, true)]);
    OneDo(s, Chunk(MISSED, false));
    assert READS == [Chunk(MISSED, false)] + [Chunk(REST, true)];
    var n := s.(intake := Lose(FIRST, MISSED));
    assert Do(s, Chunk(MISSED, false)) == n;
    OneDo(n, Chunk(REST, true));
    assert BEGUN[..3] == FORGED[..3];
  }

  lemma ForgedIsAccepted()
    ensures var s := Mid(ALL, FORGED, 3, 9);
            var n := Do(s, PARSE);
            && n.frames == [Parcel(0, FORGED_BODY)] && n.hand == Nothing
            && n.intake == ALL && n.reports == EmptyWindow() && n.responses == EmptyWindow()
  {
    ForgedIsAFrame();
    hide WellFormed, Body;
    var s := Mid(ALL, FORGED, 3, 9);
    assert FORGED[..9] + [FORGED[9]] == FORGED;
    assert Step(AsWritten, Answers(true, true, true, true), FORGED, 3, s.core).events == [Accept(0, FORGED, Taken)];
  }

  lemma ForgedIsHandled(s: System)
    requires s.hand == Holding(Parcel(0, FORGED_BODY)) && s.reports == EmptyWindow() && s.responses == EmptyWindow()
    ensures Do(s, Handle(true)) == s.(hand := Nothing, reports := Window([Item(0, PRESENCE)], 1, [], []))
  {
    PresenceIsReported();
    hide Decode, Step, DoParse, DoChunk, DoTake;
    assert Send(s.reports, Item(0, PRESENCE)) == Window([Item(0, PRESENCE)], 1, [], []);
  }

  lemma TakenAndPolled(s: System)
    requires s.reports.queued <= |s.reports.pushed| && s.responses.queued <= |s.responses.pushed|
    ensures s.frames == [Parcel(0, FORGED_BODY)] && s.hand == Nothing ==>
              Do(s, Take(true)) == s.(frames := [], hand := Holding(Parcel(0, FORGED_BODY)))
    ensures s.reports == Window([Item(0, PRESENCE)], 1, [], []) ==>
              Do(s, PollReport) == s.(reports := Window([Item(0, PRESENCE)], 0, [0], []))
  {
    hide DoHandle, DoParse, DoChunk;
    if s.frames != [] {
      assert |s.frames| == 1 ==> s.frames[1..] == [];
    }
  }

  lemma ForgedIsPolled(s: System)
    requires s.frames == [Parcel(0, FORGED_BODY)] && s.hand == Nothing
    requires s.reports == EmptyWindow() && s.responses == EmptyWindow()
    ensures var n := RunSystem(s, [Take(true), Handle(true), PollReport]);
            n.intake == s.intake && n.reports == Window([Item(0, PRESENCE)], 0, [0], [])
  {
    ThreeDos(s, Take(true), Handle(true), PollReport);
    TakenAndPolled(s);
    var h := s.(frames := [], hand := Holding(Parcel(0, FORGED_BODY)));
    ForgedIsHandled(h);
    TakenAndPolled(h.(hand := Nothing, reports := Window([Item(0, PRESENCE)], 1, [], [])));
    hide *;
  }

  lemma PresenceIsReported()
    ensures Decode(FORGED_BODY) == [PRESENCE]
  {
    hide Decode, KindOf;
    DecodeIsReportOrLookup(FORGED_BODY);
  }

  lemma WhatWasRead()
    ensures ALL.read == BEGUN + MISSED + REST
  {
  }

  /** The only header on the UART declares more bytes than were read. */
  lemma NoFrameWasRead(b: nat, e: nat)
    requires b <= e <= |ALL.read|
    ensures !WellFormed(ALL.read[b..e])
  {
    hide Sum, Keep, Lose;
    var (read, f) := (BEGUN + MISSED + REST, ALL.read[b..e]);
    WhatWasRead();
    if |f| >= OVERHEAD {
      assert f[0] == read[b] && f[4] == read[b + 4] && f[5] == read[b + 5];
      assert forall k :: 0 < k < |read| ==> read[k] != HEADER1;
    }
  }

  /** 53 59 80 is parsed, 02 02 02 02 dropped, 01 00 01 01 2F 54 43 parsed: a poller is told that someone is present,
      although no segment of what was read is a frame. */
  lemma DroppedChunkForgesAReport()
    ensures var s := RunSystem(START, FORGING);
            && s.intake.read == BEGUN + MISSED + REST && s.intake.gaps == {3}
            && s.reports.polled == [0] && s.reports.pushed == [Item(0, PRESENCE)]
            && forall b, e {:trigger s.intake.read[b..e]} :: 0 <= b <= e <= |s.intake.read| ==>
                 !WellFormed(s.intake.read[b..e])
  {
    hide RunSystem, Parses, Mid, WellFormed;
    BegunIsRead();
    MissedIsDropped();
    ParsesMid(ALL, FORGED, 3, 3, 6);
    ForgedIsAccepted();
    var last := Do(Mid(ALL, FORGED, 3, 9), PARSE);
    ForgedIsPolled(last);
    RunSystemAppend(START, [Chunk(BEGUN, true)] + Parses(3) + READS + Parses(6), POLLING);
    RunSystemAppend(START, [Chunk(BEGUN, true)] + Parses(3) + READS, Parses(6));
    RunSystemAppend(START, [Chunk(BEGUN, true)] + Parses(3), READS);
    RunSystemAppend(Mid(ALL, FORGED, 3, 9), [PARSE], [Take(true), Handle(true), PollReport]);
    assert POLLING == [PARSE] + [Take(true), Handle(true), PollReport];
    OneDo(Mid(ALL, FORGED, 3, 9), PARSE);
    forall b, e | 0 <= b <= e <= |ALL.read| ensures !WellFormed(ALL.read[b..e]) {
      NoFrameWasRead(b, e);
    }
  }
}
