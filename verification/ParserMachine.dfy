/** One loop iteration of process_data at a time.

    The machine reads an absolute byte stream. `lo` is where the current chunk begins, so `pos - lo`
    is the source's loop index `i`, and a rewind below `lo` is the source's negative index. */
module ParserMachine {
  import opened Protocol

  const STARTING_SIZE: nat := 20
  const BIG_THRESHOLD: nat := 3

  /** Where scanning resumes after a rejected candidate that starts at q and declares L payload bytes.
      The source clears the length before using it and resumes at q + 2 + L (AsWritten); its comments
      ask for q + 2 (Intended). */
  datatype Rewind = AsWritten | Intended

  /** What the environment answers during one iteration: allocation for growing, for the frame data and
      for the restarted buffer, and whether the frame queue takes the frame. */
  datatype Answers = Answers(grow: bool, frame: bool, save: bool, restart: bool)

  const GRANTED := Answers(true, true, true, true)

  /** built is building_buffer[..built_frame_len]; head1, head2 and payload_len are functions of it. */
  datatype Parser = Parser(built: seq<byte>, hasBuffer: bool, size: nat, big: nat)

  /** What became of a good frame: put into the frame queue, refused by it, or dropped for want of memory. */
  datatype Fate = Taken | NoRoom | NoMemory

  function FateOf(a: Answers): Fate {
    if !a.frame then NoMemory else if a.save then Taken else NoRoom
  }

  datatype Event =
    | Accept(start: nat, frame: seq<byte>, fate: Fate)
    | Reject(start: nat, frame: seq<byte>)

  /** steps counts loop iterations. crashed stands for a write through a missing building buffer. */
  datatype Config = Config(
    pos: nat, parser: Parser, events: seq<Event>, steps: nat, lossy: bool, crashed: bool)

  const INITIAL := Config(0, Parser([], true, STARTING_SIZE, 0), [], 0, false, false)

  function Start(c: Config): int {
    c.pos - |c.parser.built|
  }

  function Restart(p: Parser, granted: bool): Parser {
    if p.big >= BIG_THRESHOLD then p.(built := [])
    else Parser([], granted, if granted then STARTING_SIZE else 0, p.big)
  }

  /** First position looked at after a decision on the candidate of event e. */
  function Resume(mode: Rewind, e: Event): nat
    requires |e.frame| >= OVERHEAD
  {
    if e.Accept? then e.start + |e.frame|
    else if mode == AsWritten then e.start + |e.frame| - 7
    else e.start + 2
  }

  function Push(p: Parser, b: byte): Parser {
    p.(built := p.built + [b])
  }

  /** The length bytes are in: count big frames and make room (source lines 207-229). */
  function ReadLength(p: Parser, a: Answers): (Parser, bool)
    requires |p.built| == 6
  {
    var need := LenField(p.built) + OVERHEAD;
    var q := p.(big := if need >= p.size then p.big + 1 else 0);
    if need <= p.size then (q, true)
    else if a.grow then (q.(size := need), true)
    else (Restart(q.(hasBuffer := false), a.restart), false)
  }

  function Step(mode: Rewind, a: Answers, s: seq<byte>, lo: nat, c: Config): (r: Config)
    requires lo <= c.pos < |s|
    ensures lo <= r.pos <= |s|
    ensures r.crashed || Start(c) < Start(r) || (Start(c) == Start(r) && c.pos < r.pos)
  {
    var b := s[c.pos];
    var p := c.parser;
    var next := c.(steps := c.steps + 1, pos := c.pos + 1);
    if |p.built| == 0 then
      if b != HEADER1 then next
      else if !p.hasBuffer then c.(steps := c.steps + 1, crashed := true)
      else next.(parser := Push(p, b))
    else if |p.built| == 1 then
      if b == HEADER2 then next.(parser := Push(p, b))
      else c.(steps := c.steps + 1, parser := Restart(p, a.restart))
    else
      var q := Push(p, b);
      if |q.built| < 6 then next.(parser := q)
      else if |q.built| == 6 then next.(parser := ReadLength(q, a).0)
      else if |q.built| != OVERHEAD + LenField(q.built) then next.(parser := q)
      else Decide(mode, a, s, lo, next, q)
  }

  /** A whole candidate is in the buffer: check footer and checksum (source lines 232-291). */
  function Decide(mode: Rewind, a: Answers, s: seq<byte>, lo: nat, next: Config, q: Parser): (r: Config)
    requires lo < next.pos <= |s|
    requires |q.built| >= OVERHEAD && |q.built| == OVERHEAD + LenField(q.built)
  {
    var start := if next.pos >= |q.built| then next.pos - |q.built| else 0;
    var idle := next.(parser := Restart(q, a.restart));
    if WellFormed(q.built) then
      idle.(events := next.events + [Accept(start, q.built, FateOf(a))])
    else
      var rejected := idle.(events := next.events + [Reject(start, q.built)]);
      var back := if mode == AsWritten then 7 else |q.built| - 2;
      if next.pos - back >= lo then rejected.(pos := next.pos - back)
      else rejected.(pos := |s|, lossy := true)
  }

  /** One call: iterate until the chunk s[lo..] is used up. */
  function Drain(mode: Rewind, env: nat -> Answers, s: seq<byte>, lo: nat, c: Config): (r: Config)
    requires lo <= c.pos <= |s|
    ensures lo <= r.pos <= |s| && (r.crashed || r.pos == |s|)
    decreases !c.crashed, |s| - Start(c), |s| - c.pos
  {
    if c.crashed || c.pos == |s| then c
    else Drain(mode, env, s, lo, Step(mode, env(c.steps), s, lo, c))
  }
}
