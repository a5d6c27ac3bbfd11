/** The whole pipeline when parser, decoder task and frame queue refuse nothing: exactly what was parsed comes out at
    the other end. */
module ExactPipeline {
  import opened Protocol
  import opened ParserMachine
  import opened ParserSafety
  import opened Scanner
  import opened Chunking
  import opened Delivery
  import opened Decoder
  import opened EventQueue
  import opened EndToEnd
  import LostChunks

  // ----- from the parser's events to the event queues -----

  /** What event number tag makes the decoder push into the queue of reports, or of responses. */
  function Items(events: seq<Event>, tag: nat, reports: bool): seq<Item>
    requires tag < |events|
  {
    var e := events[tag];
    if e.Accept? && e.fate.Taken? && |e.frame| >= OVERHEAD then Kept(tag, Decode(Body(e.frame)), reports) else []
  }

  function Kept(tag: nat, decoded: seq<AppEvent>, reports: bool): seq<Item> {
    if |decoded| == 1 && decoded[0].Report? == reports then [Item(tag, decoded[0])] else []
  }

  function AllItems(events: seq<Event>, n: nat, reports: bool): seq<Item>
    requires n <= |events|
  {
    if n == 0 then [] else AllItems(events, n - 1, reports) + Items(events, n - 1, reports)
  }

  ghost predicate Sorted(items: seq<Item>) {
    forall i, j :: 0 <= i < j < |items| ==> items[i].tag < items[j].tag
  }

  /** Item i is what its event decodes to, and of the right kind. */
  ghost predicate Belongs(events: seq<Event>, i: Item, reports: bool) {
    i.tag < |events| && Items(events, i.tag, reports) == [i]
  }

  lemma {:induction false} AllItemsAreSorted(events: seq<Event>, n: nat, reports: bool)
    requires n <= |events|
    ensures Sorted(AllItems(events, n, reports))
    ensures forall i: Item :: i in AllItems(events, n, reports) <==> i.tag < n && Belongs(events, i, reports)
  {
    hide Items, Sorted;
    if n == 0 {
      NoneIsSorted();
    } else {
      AllItemsAreSorted(events, n - 1, reports);
      ItemsCarryTheirTag(events, n - 1, reports);
      var front, last := AllItems(events, n - 1, reports), Items(events, n - 1, reports);
      SortedSnoc(front, last, n - 1);
      forall i: Item ensures i in front + last <==> i.tag < n && Belongs(events, i, reports) {
        assert i in front + last <==> i in front || i in last;
      }
    }
  }

  lemma NoneIsSorted()
    ensures Sorted([])
  {
  }

  lemma ItemsCarryTheirTag(events: seq<Event>, tag: nat, reports: bool)
    requires tag < |events|
    ensures var items := Items(events, tag, reports);
            |items| <= 1 && (forall i: Item :: i in items ==> i.tag == tag && items == [i])
  {
    hide Decode, Body;
  }

  lemma SortedSnoc(front: seq<Item>, last: seq<Item>, tag: nat)
    requires Sorted(front) && |last| <= 1 && (forall i: Item :: i in front ==> i.tag < tag)
        && (forall i: Item :: i in last ==> i.tag == tag)
    ensures Sorted(front + last)
  {
    var all := front + last;
    forall i, j | 0 <= i < j < |all| ensures all[i].tag < all[j].tag {
      assert all[i] in front;
      if j < |front| {
        assert all[j] == front[j] && all[i] == front[i];
      } else {
        assert all[j] in last;
      }
    }
  }

  ghost predicate SameMembers(a: seq<Item>, b: seq<Item>) {
    (forall i: Item :: i in a ==> i in b) && (forall i: Item :: i in b ==> i in a)
  }

  lemma HasMember(a: seq<Item>)
    ensures a != [] ==> exists i: Item :: i in a
  {
    if a != [] {
      assert a[0] in a;
    }
  }

  lemma FrontsAreSame(a: seq<Item>, b: seq<Item>)
    requires a != [] && b != [] && Sorted(a) && Sorted(b) && SameMembers(a, b)
    ensures var (x, y) := (a[..|a| - 1], b[..|b| - 1]);
            Sorted(x) && Sorted(y) && SameMembers(x, y) && a[|a| - 1] == b[|b| - 1]
  {
    LastsAgree(a, b);
    FrontMembers(a);
    FrontMembers(b);
    hide Sorted;
    var (x, y) := (a[..|a| - 1], b[..|b| - 1]);
    forall i: Item | i in x ensures i in y {
      assert i in b;
    }
    forall i: Item | i in y ensures i in x {
      assert i in a;
    }
  }

  /** Two sorted sequences with the same members are the same. */
  lemma {:induction false} SortedAreEqual(a: seq<Item>, b: seq<Item>)
    requires Sorted(a) && Sorted(b) && SameMembers(a, b)
    ensures a == b
    decreases |a|
  {
    if a == [] || b == [] {
      HasMember(a);
      HasMember(b);
    } else {
      hide SameMembers, Sorted;
      FrontsAreSame(a, b);
      SortedAreEqual(a[..|a| - 1], b[..|b| - 1]);
      assert a == a[..|a| - 1] + [a[|a| - 1]] && b == b[..|b| - 1] + [b[|b| - 1]];
    }
  }

  lemma LastsAgree(a: seq<Item>, b: seq<Item>)
    requires a != [] && b != [] && Sorted(a) && Sorted(b) && SameMembers(a, b)
    ensures a[|a| - 1] == b[|b| - 1]
  {
    LastIsLargest(a, b[|b| - 1]);
    LastIsLargest(b, a[|a| - 1]);
  }

  lemma LastIsLargest(a: seq<Item>, i: Item)
    requires Sorted(a) && i in a
    ensures i == a[|a| - 1] || i.tag < a[|a| - 1].tag
  {
    var k :| 0 <= k < |a| && a[k] == i;
    if k < |a| - 1 {
      assert a[k].tag < a[|a| - 1].tag;
    }
  }

  lemma FrontMembers(a: seq<Item>)
    requires a != [] && Sorted(a)
    ensures Sorted(a[..|a| - 1])
    ensures forall i: Item :: i in a[..|a| - 1] <==> i in a && i != a[|a| - 1]
  {
    var front := a[..|a| - 1];
    forall i: Item ensures i in front <==> i in a && i != a[|a| - 1] {
      if i in front {
        var j :| 0 <= j < |front| && front[j] == i;
        assert a[j].tag < a[|a| - 1].tag;
      }
      if i in a && i != a[|a| - 1] {
        var j :| 0 <= j < |a| && a[j] == i;
        assert front[j] == i;
      }
    }
  }

  ghost predicate AllPushed(s: System) {
    && s.reports.pushed == AllItems(s.core.events, |s.core.events|, true)
    && s.responses.pushed == AllItems(s.core.events, |s.core.events|, false)
  }

  /** Whatever is in a queue belongs there. */
  lemma PushedBelongs(s: System, w: Window<Item>, i: Item, reports: bool)
    requires Faithful(s.core, Trail(s), w) && i in w.pushed && i.event.Report? == reports
    ensures Belongs(s.core.events, i, reports)
  {
    hide Accounted, Decode, Body;
    assert Decoded(s.core, Trail(s), i);
  }

  /** Whatever belongs in a queue is there, once nothing is under way. */
  lemma BelongingIsPushed(s: System, i: Item, reports: bool)
    requires GoodQueues(s.core, Trail(s), s.reports, s.responses) && AllAccountable(s) && Trail(s) == []
    requires Belongs(s.core.events, i, reports)
    ensures i in (if reports then s.reports else s.responses).pushed
  {
    hide Accounted, Decode, Body;
    assert Accountable(s, i.tag);
    assert !UnderWay(Trail(s), i.tag);
    assert Decode(Body(s.core.events[i.tag].frame)) == [i.event];
    if Pushed(s.reports, i.tag) {
      var j :| j in s.reports.pushed && j.tag == i.tag;
      assert Decoded(s.core, Trail(s), j);
    } else {
      var j :| j in s.responses.pushed && j.tag == i.tag;
      assert Decoded(s.core, Trail(s), j);
    }
  }

  /** With nothing under way the queues have seen exactly the decodings of the frames taken, in order. */
  lemma SettledIsComplete(s: System)
    requires Good(s) && AllAccountable(s) && Trail(s) == []
    ensures AllPushed(s)
  {
    hide Sound, GoodTrail, Belongs, AllAccountable, AllItems, Decoded, Accounted;
    var events := s.core.events;
    AllItemsAreSorted(events, |events|, true);
    AllItemsAreSorted(events, |events|, false);
    forall i: Item ensures i in s.reports.pushed <==> i in AllItems(events, |events|, true) {
      if i in s.reports.pushed {
        PushedBelongs(s, s.reports, i, true);
        BelongsBelow(events, i, true);
      }
      if Belongs(events, i, true) {
        BelongingIsPushed(s, i, true);
      }
    }
    forall i: Item ensures i in s.responses.pushed <==> i in AllItems(events, |events|, false) {
      if i in s.responses.pushed {
        PushedBelongs(s, s.responses, i, false);
        BelongsBelow(events, i, false);
      }
      if Belongs(events, i, false) {
        BelongingIsPushed(s, i, false);
      }
    }
    SortedAreEqual(s.reports.pushed, AllItems(events, |events|, true));
    SortedAreEqual(s.responses.pushed, AllItems(events, |events|, false));
  }

  lemma BelongsBelow(events: seq<Event>, i: Item, reports: bool)
    requires Belongs(events, i, reports)
    ensures i.tag < |events|
  {
  }

  // ----- from the stream to the parser's events -----

  /** Every request of the parser's loop and of the decoder task for memory is granted, and the frame queue has room
      when a frame is parsed. A chunk may still be dropped before it is parsed. */
  predicate Smooth(s: System, a: Action) {
    Generous(a) && (a.Parse? ==> a.grow && a.frame && a.restart && Queueable(s))
  }

  ghost predicate SmoothRun(s: System, actions: seq<Action>)
    requires s.reports.queued <= |s.reports.pushed| && s.responses.queued <= |s.responses.pushed|
    decreases |actions|
  {
    actions == [] || (Smooth(s, actions[0]) && SmoothRun(Do(s, actions[0]), actions[1..]))
  }

  /** Seen from the full stream, the parser has decided exactly what the scanner decides up to here. */
  ghost predicate OnScan(full: seq<byte>, c: Config) {
    && Running(full, c) && 0 <= Start(c) <= |full|
    && Scan(AsWritten, full, 0).events == c.events + Scan(AsWritten, full, Start(c)).events
  }

  lemma DecisionStaysOnScan(full: seq<byte>, c: Config)
    requires OnScan(full, c) && Completes(full, c)
    ensures OnScan(full, Step(AsWritten, GRANTED, full, 0, c))
  {
    hide Scan, Step, Resume, Genuine, Ordered, Capacity, WellFormed, LenField;
    var e := Verdict(GRANTED, Start(c), full[Start(c)..c.pos + 1]);
    StepKeepsRunning(AsWritten, full, c);
    StepDecides(AsWritten, GRANTED, full, 0, c);
    CompletedIsNextDecision(AsWritten, full, c);
    var later := Scan(AsWritten, full, Resume(AsWritten, e)).events;
    assert c.events + ([e] + later) == c.events + [e] + later;
  }

  lemma MoveStaysOnScan(full: seq<byte>, c: Config)
    requires OnScan(full, c) && c.pos < |full| && !Completes(full, c)
    ensures OnScan(full, Step(AsWritten, GRANTED, full, 0, c))
  {
    hide Scan, Step, Sound, Completes;
    StepKeepsRunning(AsWritten, full, c);
    MoveStays(AsWritten, full, c);
    if Start(Step(AsWritten, GRANTED, full, 0, c)) != Start(c) {
      ScanSkips(AsWritten, full, Start(c));
    }
  }

  /** An iteration that drops nothing is one of the whole stream's. */
  lemma ParseStaysOnScan(s: seq<byte>, more: seq<byte>, lo: nat, c: Config)
    requires lo <= c.pos < |s| && Sound(s, c) && OnScan(s + more, c)
    requires !Step(AsWritten, GRANTED, s, lo, c).lossy
    ensures OnScan(s + more, Step(AsWritten, GRANTED, s, lo, c))
  {
    hide OnScan, Step, Sound, Completes;
    NotLossy(s + more, c);
    StepLo(AsWritten, GRANTED, s, lo, 0, c);
    StepPrefix(AsWritten, GRANTED, s, more, 0, c);
    if Completes(s + more, c) {
      DecisionStaysOnScan(s + more, c);
    } else {
      MoveStaysOnScan(s + more, c);
    }
  }

  lemma NotLossy(full: seq<byte>, c: Config)
    requires OnScan(full, c)
    ensures !c.lossy
  {
  }

  lemma DoGrows(s: System, a: Action)
    requires Good(s)
    ensures s.stream <= Do(s, a).stream && (s.core.lossy ==> Do(s, a).core.lossy)
  {
    hide Sound, GoodTrail, Step;
    if a.Parse? && s.lo <= s.core.pos < |s.stream| {
      StepGrows(AsWritten, Answers(a.grow, a.frame, Queueable(s), a.restart), s.stream, s.lo, s.core);
    }
  }

  lemma {:induction false} RunGrows(s: System, actions: seq<Action>)
    requires Good(s)
    ensures s.stream <= RunSystem(s, actions).stream && (s.core.lossy ==> RunSystem(s, actions).core.lossy)
    decreases |actions|
  {
    if actions != [] {
      DoIsGood(s, actions[0]);
      DoGrows(s, actions[0]);
      hide Do;
      RunGrows(Do(s, actions[0]), actions[1..]);
    }
  }

  lemma DoStaysOnScan(s: System, a: Action, full: seq<byte>)
    requires Good(s) && Smooth(s, a) && OnScan(full, s.core) && s.stream <= full && !Do(s, a).core.lossy
    ensures OnScan(full, Do(s, a).core)
  {
    hide OnScan, Step, GoodTrail, GoodQueues, Sound;
    if a.Parse? && !s.core.crashed && s.core.pos < |s.stream| {
      var more := full[|s.stream|..];
      assert s.stream + more == full;
      ParseStaysOnScan(s.stream, more, s.lo, s.core);
    }
  }

  lemma {:induction false} RunStaysOnScan(s: System, actions: seq<Action>, full: seq<byte>)
    requires Good(s) && SmoothRun(s, actions) && OnScan(full, s.core)
    requires RunSystem(s, actions).stream == full && !RunSystem(s, actions).core.lossy
    ensures OnScan(full, RunSystem(s, actions).core)
    decreases |actions|
  {
    hide OnScan, Sound, GoodTrail, Decoded, Smooth;
    if actions != [] {
      DoIsGood(s, actions[0]);
      RunGrows(s, actions);
      RunGrows(Do(s, actions[0]), actions[1..]);
      DoStaysOnScan(s, actions[0], full);
      RunStaysOnScan(Do(s, actions[0]), actions[1..], full);
    }
  }

  lemma SmoothIsGenerous(s: System, a: Action)
    requires Smooth(s, a)
    ensures Generous(a)
  {
  }

  lemma {:induction false} SmoothRunIsGenerous(s: System, actions: seq<Action>)
    requires s.reports.queued <= |s.reports.pushed| && s.responses.queued <= |s.responses.pushed|
    requires SmoothRun(s, actions)
    ensures forall a :: a in actions ==> Generous(a)
    decreases |actions|
  {
    hide Do, Smooth, Generous;
    if actions != [] {
      SmoothIsGenerous(s, actions[0]);
      SmoothRunIsGenerous(Do(s, actions[0]), actions[1..]);
      forall a | a in actions ensures Generous(a) {
        assert a == actions[0] || a in actions[1..];
      }
    }
  }

  lemma StartIsOnScan(full: seq<byte>)
    ensures OnScan(full, START.core)
  {
    InitialIsSound(full);
    hide Scan, Sound;
    assert [] + Scan(AsWritten, full, 0).events == Scan(AsWritten, full, 0).events;
  }

  lemma AtTheEnd(full: seq<byte>, c: Config)
    requires OnScan(full, c) && c.pos == |full|
    ensures c.events == Scan(AsWritten, full, 0).events
  {
    PendingAgrees(AsWritten, full, c);
    hide Scan, Sound;
  }

  /** Everything that reached the parser has been parsed, decoded and queued. */
  predicate Settled(s: System) {
    s.core.pos == |s.stream| && Trail(s) == []
  }

  lemma EventsAreScanned(actions: seq<Action>)
    requires SmoothRun(START, actions)
    requires Settled(RunSystem(START, actions)) && !RunSystem(START, actions).core.lossy
    ensures var s := RunSystem(START, actions);
            s.core.events == Scan(AsWritten, s.stream, 0).events
  {
    hide RunSystem, Scan, OnScan, Good;
    var s := RunSystem(START, actions);
    StartIsGood();
    StartIsOnScan(s.stream);
    RunStaysOnScan(START, actions, s.stream);
    AtTheEnd(s.stream, s.core);
  }

  /** In every interleaving in which the loop and the decoder task get their memory, the frame queue never overflows
      and no chunk is cut short: once everything is settled, what was pushed for the pollers is exactly the decodings
      of the frames the scanner finds in the bytes parsed, each once, in stream order. These are the bytes read from
      the UART exactly if no chunk was dropped. */
  lemma ExactlyTheStreamIsPushed(actions: seq<Action>)
    requires SmoothRun(START, actions)
    requires Settled(RunSystem(START, actions)) && !RunSystem(START, actions).core.lossy
    ensures var s := RunSystem(START, actions);
            var events := Scan(AsWritten, s.stream, 0).events;
            && s.reports.pushed == AllItems(events, |events|, true)
            && s.responses.pushed == AllItems(events, |events|, false)
            && (s.stream == s.intake.read <==> s.intake.gaps == {})
  {
    hide RunSystem, Scan, OnScan, Good, AllAccountable, AllItems, LostChunks.Traced;
    LostChunks.BytesParsedAreBytesRead(actions);
    var s := RunSystem(START, actions);
    StartIsGood();
    RunIsGood(START, actions);
    SmoothRunIsGenerous(START, actions);
    NoFrameGoesMissing(actions);
    SettledIsComplete(s);
    EventsAreScanned(actions);
  }

  // ----- streams of built frames -----

  /** An iteration loses bytes only by rejecting a candidate, which the scanner then rejects as well. */
  lemma LossIsARejection(s: seq<byte>, more: seq<byte>, lo: nat, c: Config)
    requires lo <= c.pos < |s| && Sound(s, c) && OnScan(s + more, c)
    requires forall e :: e in Scan(AsWritten, s + more, 0).events ==> e.Accept?
    ensures !Step(AsWritten, GRANTED, s, lo, c).lossy
  {
    hide Scan, Step, Genuine, Ordered, Capacity, WellFormed, LenField;
    var full := s + more;
    StepLo(AsWritten, GRANTED, s, lo, 0, c);
    if Completes(s, c) {
      var e := Verdict(GRANTED, Start(c), s[Start(c)..c.pos + 1]);
      assert full[Start(c)..c.pos + 1] == s[Start(c)..c.pos + 1];
      StepDecides(AsWritten, GRANTED, s, lo, c);
      CompletedIsNextDecision(AsWritten, full, c);
      assert e in Scan(AsWritten, full, Start(c)).events;
      assert e in Scan(AsWritten, full, 0).events;
    }
  }

  lemma DoLosesNothing(s: System, a: Action, full: seq<byte>)
    requires Good(s) && Smooth(s, a) && OnScan(full, s.core) && s.stream <= full
    requires forall e :: e in Scan(AsWritten, full, 0).events ==> e.Accept?
    ensures !Do(s, a).core.lossy && OnScan(full, Do(s, a).core)
  {
    hide OnScan, Step, GoodTrail, GoodQueues, Sound, Scan;
    NotLossy(full, s.core);
    if a.Parse? && !s.core.crashed && s.core.pos < |s.stream| {
      var more := full[|s.stream|..];
      assert s.stream + more == full;
      LossIsARejection(s.stream, more, s.lo, s.core);
    }
    DoStaysOnScan(s, a, full);
  }

  lemma {:induction false} RunLosesNothing(s: System, actions: seq<Action>, full: seq<byte>)
    requires Good(s) && SmoothRun(s, actions) && OnScan(full, s.core) && RunSystem(s, actions).stream == full
    requires forall e :: e in Scan(AsWritten, full, 0).events ==> e.Accept?
    ensures !RunSystem(s, actions).core.lossy
    decreases |actions|
  {
    hide OnScan, Sound, GoodTrail, Decoded, Smooth, Scan;
    NotLossy(full, s.core);
    if actions != [] {
      DoIsGood(s, actions[0]);
      RunGrows(s, actions);
      DoLosesNothing(s, actions[0], full);
      RunLosesNothing(Do(s, actions[0]), actions[1..], full);
    }
  }

  /** A sensor that sends frames separated by quiet noise: whatever the chunks and the interleaving, if none is dropped
      then, once everything is settled, the queues have seen exactly the decodings of those frames. */
  lemma BuiltFramesArePushedExactly(actions: seq<Action>, pieces: seq<Piece>, tail: seq<byte>)
    requires SmoothRun(START, actions) && Settled(RunSystem(START, actions))
    requires Deliverable(pieces, tail)
    requires RunSystem(START, actions).intake.read == Wire(pieces, tail) && RunSystem(START, actions).intake.gaps == {}
    ensures var s := RunSystem(START, actions);
            && Delivered(s.core.events) == Bodies(pieces)
            && s.reports.pushed == AllItems(s.core.events, |s.core.events|, true)
            && s.responses.pushed == AllItems(s.core.events, |s.core.events|, false)
  {
    hide RunSystem, Scan, OnScan, Good, AllItems, Wire, SmoothRun, Settled, LostChunks.Traced;
    var s := RunSystem(START, actions);
    LostChunks.BytesParsedAreBytesRead(actions);
    var none: seq<byte> := [];
    assert none + Wire(pieces, tail) == Wire(pieces, tail);
    ScanDelivers(AsWritten, none, pieces, tail);
    StartIsGood();
    StartIsOnScan(s.stream);
    RunLosesNothing(START, actions, s.stream);
    ExactlyTheStreamIsPushed(actions);
    EventsAreScanned(actions);
  }
}
