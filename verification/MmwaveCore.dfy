/** The parser and builder as they are written: fields, a byte buffer updated in place, a loop whose index
    moves both ways. Every method is tied to the machine of ParserMachine. */
module MmwaveCore {
  import opened Protocol
  import opened ParserMachine
  import opened ParserSafety
  import opened Delivery
  import opened CallStatus

  /** The callbacks the HAL binds into the core. Whether an allocation is granted or a frame is taken is the
      caller's `granted` / `taken`, so a run fixes the environment's answers in advance. */
  class Hal {
    var queue: seq<seq<byte>>
    /** Blocks handed out and not yet given back. */
    ghost var live: set<array<byte>>

    method AllocMem(size: nat, granted: bool) returns (mem: array?<byte>)
      modifies this`live
      ensures mem != null <==> granted
      ensures mem != null ==> fresh(mem) && mem.Length == size && live == old(live) + {mem}
      ensures mem == null ==> live == old(live)
    {
      if granted {
        mem := new byte[size](_ => 0);
        live := live + {mem};
      } else {
        mem := null;
      }
    }

    /** The size handed back is what the quota counter subtracts, so it must be the size handed out. */
    method FreeMem(mem: array?<byte>, size: nat)
      requires mem != null ==> mem in live && mem.Length == size
      modifies this`live
      ensures live == if mem == null then old(live) else old(live) - {mem}
    {
      if mem != null {
        live := live - {mem};
      }
    }

    /** A frame that is taken belongs to the HAL from then on. */
    method SaveFrame(data: array<byte>, taken: bool) returns (ok: bool)
      requires data in live
      modifies this
      ensures ok == taken
      ensures queue == if ok then old(queue) + [data[..]] else old(queue)
      ensures live == if ok then old(live) - {data} else old(live)
    {
      if taken {
        queue := queue + [data[..]];
        live := live - {data};
      }
      ok := taken;
    }
  }

  class Core {
    var halFunctions: Hal?
    var bigFramesCount: nat
    var buildingBuffer: array?<byte>
    var parsingBuffCurrentSize: nat
    var builtFrameLen: nat
    var head1: bool
    var head2: bool
    var payloadLen: nat
    var dataSavingBuff: array?<byte>
    var dataSavingBuffSize: nat

    /** The buffer variables agree with machine state p. */
    ghost predicate Backed(p: Parser)
      reads this, buildingBuffer
    {
      && (buildingBuffer != null <==> p.hasBuffer)
      && parsingBuffCurrentSize == p.size && bigFramesCount == p.big
      && (buildingBuffer != null ==> buildingBuffer.Length == p.size)
    }

    /** The fields represent machine state p. */
    ghost predicate Represents(p: Parser)
      reads this, buildingBuffer
    {
      && Backed(p)
      && (buildingBuffer != null ==> |p.built| <= p.size && buildingBuffer[..|p.built|] == p.built)
      && (buildingBuffer == null ==> p.built == [])
      && builtFrameLen == |p.built|
      && head1 == (|p.built| >= 1) && head2 == (|p.built| >= 2)
      && payloadLen == if |p.built| >= 6 then LenField(p.built) else 0
    }

    /** What the core owns at the HAL: its two buffers. */
    ghost function Owned(): set<array<byte>>
      reads this
    {
      (if buildingBuffer == null then {} else {buildingBuffer})
      + (if dataSavingBuff == null then {} else {dataSavingBuff})
    }

    ghost predicate Holds(hal: Hal)
      reads this, hal, buildingBuffer, dataSavingBuff
    {
      && Owned() <= hal.live
      && (buildingBuffer != null ==> buildingBuffer != dataSavingBuff)
      && (dataSavingBuff != null ==> dataSavingBuff.Length == dataSavingBuffSize)
      && (dataSavingBuff == null ==> dataSavingBuffSize == 0)
    }

    /** The part of the saved chunk that the current call looks at. */
    ghost function Chunk(len: nat): seq<byte>
      requires len <= dataSavingBuffSize && (dataSavingBuff != null ==> dataSavingBuff.Length == dataSavingBuffSize)
      reads this, dataSavingBuff
    {
      if dataSavingBuff == null then [] else dataSavingBuff[..len]
    }

    constructor ()
      ensures halFunctions == null && buildingBuffer == null && dataSavingBuff == null
      ensures Represents(Parser([], false, 0, 0)) && dataSavingBuffSize == 0
    {
      halFunctions, bigFramesCount := null, 0;
      buildingBuffer, parsingBuffCurrentSize, builtFrameLen := null, 0, 0;
      head1, head2, payloadLen := false, false, 0;
      dataSavingBuff, dataSavingBuffSize := null, 0;
    }

    method BindCallbacks(hal: Hal?)
      modifies this`halFunctions
      ensures halFunctions == hal
    {
      halFunctions := hal;
    }

    /** restart_parser: frees and reallocates the buffer unless big frames keep coming. */
    method RestartParser(hal: Hal, granted: bool, ghost p: Parser)
      requires halFunctions == hal && Backed(p) && Holds(hal)
      modifies this, hal`live
      ensures halFunctions == hal && dataSavingBuff == old(dataSavingBuff)
          && dataSavingBuffSize == old(dataSavingBuffSize)
      ensures Represents(Restart(p, granted)) && Holds(hal) && payloadLen == 0
      ensures old(bigFramesCount) < 3 && granted ==>
        fresh(buildingBuffer) && buildingBuffer.Length == 20 && old(buildingBuffer) !in hal.live
      ensures old(bigFramesCount) < 3 && !granted ==> buildingBuffer == null && old(buildingBuffer) !in hal.live
      ensures old(bigFramesCount) >= 3 ==> buildingBuffer == old(buildingBuffer) && hal.live == old(hal.live)
      ensures bigFramesCount == old(bigFramesCount)
      ensures hal.live - Owned() == old(hal.live - Owned())
      ensures buildingBuffer == old(buildingBuffer) || buildingBuffer == null || fresh(buildingBuffer)
    {
      head1 := false;
      head2 := false;
      builtFrameLen := 0;
      payloadLen := 0;
      if bigFramesCount < BIG_THRESHOLD {
        if buildingBuffer != null {
          hal.FreeMem(buildingBuffer, parsingBuffCurrentSize);
        }
        buildingBuffer := hal.AllocMem(STARTING_SIZE, granted);
        if buildingBuffer == null {
          parsingBuffCurrentSize := 0;
          return;
        }
        parsingBuffCurrentSize := STARTING_SIZE;
      }
    }

    /** extend_building_space: a larger buffer with the bytes built so far. A refusal costs the old buffer,
        which the caller then overwrites with NULL. */
    method ExtendBuildingSpace(hal: Hal, size: nat, granted: bool) returns (newSpace: array?<byte>)
      requires halFunctions == hal && Holds(hal) && buildingBuffer != null
      requires buildingBuffer.Length == parsingBuffCurrentSize && builtFrameLen <= parsingBuffCurrentSize <= size
      modifies this`parsingBuffCurrentSize, hal`live
      ensures (newSpace != null) == (granted && size <= MAX_PAYLOAD + OVERHEAD)
      ensures newSpace == null ==> hal.live == old(hal.live) && parsingBuffCurrentSize == old(parsingBuffCurrentSize)
      ensures newSpace != null ==>
        && fresh(newSpace) && newSpace.Length == size == parsingBuffCurrentSize
        && newSpace[..builtFrameLen] == buildingBuffer[..builtFrameLen]
        && hal.live == old(hal.live) - {buildingBuffer} + {newSpace}
    {
      if size <= MAX_PAYLOAD + OVERHEAD {
        newSpace := hal.AllocMem(size, granted);
        if newSpace == null {
          return;
        }
        forall k | 0 <= k < builtFrameLen {
          newSpace[k] := buildingBuffer[k];
        }
        hal.FreeMem(buildingBuffer, parsingBuffCurrentSize);
        parsingBuffCurrentSize := size;
      } else {
        newSpace := null;
      }
    }

    /** Six bytes are in: read the length, count big frames, make room. False if the frame had to be dropped. */
    method TakeLength(hal: Hal, a: Answers, ghost p: Parser) returns (kept: bool)
      requires halFunctions == hal && Backed(p) && Holds(hal) && buildingBuffer != null
      requires |p.built| == 6 == builtFrameLen && buildingBuffer.Length >= STARTING_SIZE
      requires buildingBuffer[..6] == p.built && head1 && head2
      modifies this, hal`live
      ensures halFunctions == hal && dataSavingBuff == old(dataSavingBuff)
          && dataSavingBuffSize == old(dataSavingBuffSize)
      ensures var need := LenField(p.built) + 9;
              && kept == (need <= old(parsingBuffCurrentSize) || a.grow)
              && bigFramesCount == (if need >= old(parsingBuffCurrentSize) then old(bigFramesCount) + 1 else 0)
              && (kept ==> parsingBuffCurrentSize == if need <= old(parsingBuffCurrentSize)
                                                     then old(parsingBuffCurrentSize) else need)
      ensures kept == ReadLength(p, a).1
      ensures Represents(ReadLength(p, a).0) && Holds(hal)
      ensures hal.live - Owned() == old(hal.live - Owned()) + if kept then {} else {old(buildingBuffer)}
      ensures buildingBuffer == old(buildingBuffer) || buildingBuffer == null || fresh(buildingBuffer)
    {
      payloadLen := (buildingBuffer[4] as int) * 0x100 + buildingBuffer[5];
      assert payloadLen == LenField(p.built) <= MAX_PAYLOAD;
      hide LenField, Restart;
      if payloadLen + OVERHEAD >= parsingBuffCurrentSize {
        bigFramesCount := bigFramesCount + 1;
      } else {
        bigFramesCount := 0;
      }
      kept := true;
      if payloadLen > parsingBuffCurrentSize - OVERHEAD {
        var newSpace := ExtendBuildingSpace(hal, payloadLen + OVERHEAD, a.grow);
        buildingBuffer := newSpace;
        if buildingBuffer == null {
          ghost var q := ReadLength(p, a.(grow := true)).0.(hasBuffer := false, size := p.size);
          RestartParser(hal, a.restart, q);
          kept := false;
        }
      }
    }

    /** Footer first, then the checksum over everything before it, summed in 16 bits. */
    method CheckFrame(ghost p: Parser) returns (ok: bool)
      requires Represents(p) && |p.built| >= OVERHEAD && |p.built| == OVERHEAD + LenField(p.built)
      requires p.built[0] == HEADER1 && p.built[1] == HEADER2
      ensures ok == WellFormed(p.built)
    {
      var f := p.built;
      ok := false;
      if buildingBuffer[6 + payloadLen + 1] == FOOTER1 && buildingBuffer[6 + payloadLen + 2] == FOOTER2 {
        var sum: nat := 0;
        for j := 0 to 6 + payloadLen
          invariant sum == Sum16(p.built[..j])
        {
          assert p.built[..j + 1][..j] == p.built[..j];
          sum := (sum + buildingBuffer[j]) % 0x10000;
        }
        Sum16LowByte(p.built[..6 + payloadLen]);
        ok := buildingBuffer[6 + payloadLen] == sum % 0x100;
      }
    }

    /** A good frame: hand its body to the HAL if there is memory and room, and restart either way. */
    method HandOver(hal: Hal, a: Answers, ghost p: Parser) returns (status: FrameStatus)
      requires halFunctions == hal && Represents(p) && Holds(hal)
      requires |p.built| >= OVERHEAD && |p.built| == OVERHEAD + LenField(p.built)
      modifies this, hal
      ensures halFunctions == hal && dataSavingBuff == old(dataSavingBuff)
          && dataSavingBuffSize == old(dataSavingBuffSize)
      ensures Represents(Restart(p, a.restart)) && Holds(hal)
      ensures hal.live - Owned() == old(hal.live - Owned())
      ensures buildingBuffer == old(buildingBuffer) || buildingBuffer == null || fresh(buildingBuffer)
      ensures hal.queue == old(hal.queue) + if a.frame && a.save then [Body(p.built)] else []
      ensures status == if !a.frame then MemoryProblem else if a.save then FrameOk else QueueFull
    {
      var frameData := hal.AllocMem(2 + payloadLen, a.frame);
      if frameData == null {
        status := MemoryProblem;
      } else {
        frameData[0] := buildingBuffer[2];
        frameData[1] := buildingBuffer[3];
        forall k | 0 <= k < payloadLen {
          frameData[2 + k] := buildingBuffer[6 + k];
        }
        assert frameData[..] == Body(p.built);
        var saved := hal.SaveFrame(frameData, a.save);
        if saved {
          status := FrameOk;
        } else {
          hal.FreeMem(frameData, 2 + payloadLen);
          status := QueueFull;
        }
      }
      RestartParser(hal, a.restart, p);
    }

    /** Looking for 53 59 (source lines 168-197). The index moves by 1 - back; crashed marks a write through NULL. */
    method Hunt(hal: Hal, b: byte, a: Answers, tally: Tally, ghost s: seq<byte>, ghost lo: nat, ghost c: Config)
      returns (back: int, crashed: bool, now: Tally)
      requires halFunctions == hal && Represents(c.parser) && Holds(hal)
      requires lo <= c.pos < |s| && b == s[c.pos] && Capacity(c.parser) && |c.parser.built| < 2 && !c.crashed
      modifies this, hal`live, buildingBuffer
      ensures halFunctions == hal && dataSavingBuff == old(dataSavingBuff)
          && dataSavingBuffSize == old(dataSavingBuffSize)
      ensures Holds(hal) && hal.live - Owned() == old(hal.live - Owned())
      ensures buildingBuffer == old(buildingBuffer) || buildingBuffer == null || fresh(buildingBuffer)
      ensures var r := Step(AsWritten, a, s, lo, c);
              && Represents(r.parser) && crashed == r.crashed
              && (!crashed ==> r.pos == c.pos + 1 - back && now == Tick(a, c, r, tally))
    {
      hide LenField, WellFormed, Candidate;
      back, crashed, now := 0, false, tally;
      if !head1 {
        if b == HEADER1 {
          if tally.finished == 0 {
            now := tally.(status := UnfinishedFrame);
          }
          if buildingBuffer == null {
            crashed := true;
            return;
          }
          buildingBuffer[0] := b;
          head1 := true;
          builtFrameLen := builtFrameLen + 1;
        }
      } else {
        if b == HEADER2 {
          buildingBuffer[1] := b;
          head2 := true;
          builtFrameLen := builtFrameLen + 1;
        } else {
          RestartParser(hal, a.restart, c.parser);
          back := 1;
        }
      }
    }

    lemma RepresentsBacked(p: Parser)
      requires Represents(p)
      ensures Backed(p)
    {
    }

    /** A whole candidate is in the buffer (source lines 232-291). */
    method Conclude(hal: Hal, a: Answers, tally: Tally, ghost s: seq<byte>, ghost lo: nat, ghost c: Config)
      returns (back: int, now: Tally)
      requires halFunctions == hal && Holds(hal) && Completes(s, c) && lo <= c.pos && !c.crashed
      requires Represents(Push(c.parser, s[c.pos]))
      modifies this, hal
      ensures halFunctions == hal && dataSavingBuff == old(dataSavingBuff)
          && dataSavingBuffSize == old(dataSavingBuffSize)
      ensures Holds(hal) && hal.live - Owned() == old(hal.live - Owned())
      ensures buildingBuffer == old(buildingBuffer) || buildingBuffer == null || fresh(buildingBuffer)
      ensures Does(s, lo, c, a, tally, back, now) && Represents(Step(AsWritten, a, s, lo, c).parser)
      ensures hal.queue == old(hal.queue) + NewFrames(c, Step(AsWritten, a, s, lo, c))
    {
      hide Step, NewFrames, Tick, WellFormed, LenField, Restart, Represents, Holds, Owned;
      back, now := 0, tally;
      ghost var q := Push(c.parser, s[c.pos]);
      ConcludeSpec(s, lo, c, a);
      RepresentsBacked(q);
      var ok := CheckFrame(q);
      if ok {
        var status := HandOver(hal, a, q);
        now := Tally(status, tally.finished + if status == FrameOk then 1 else 0);
      } else {
        RestartParser(hal, a.restart, q);
        // payloadLen has just been cleared, so this is always 7
        back := OVERHEAD + payloadLen - 2;
      }
    }

    /** Building the frame behind its header (source lines 198-293). */
    method Collect(hal: Hal, b: byte, a: Answers, tally: Tally, ghost s: seq<byte>, ghost lo: nat, ghost c: Config)
      returns (back: int, now: Tally)
      requires halFunctions == hal && Represents(c.parser) && Holds(hal)
      requires lo <= c.pos < |s| && b == s[c.pos] && Capacity(c.parser) && |c.parser.built| >= 2 && !c.crashed
      requires Tail(s, c) && Candidate(c.parser.built)
      modifies this, hal, buildingBuffer
      ensures halFunctions == hal && dataSavingBuff == old(dataSavingBuff)
          && dataSavingBuffSize == old(dataSavingBuffSize)
      ensures Holds(hal)
      ensures old(hal.live - Owned()) <= hal.live - Owned()
      ensures a.grow ==> hal.live - Owned() == old(hal.live - Owned())
      ensures buildingBuffer == old(buildingBuffer) || buildingBuffer == null || fresh(buildingBuffer)
      ensures Does(s, lo, c, a, tally, back, now) && Represents(Step(AsWritten, a, s, lo, c).parser)
      ensures hal.queue == old(hal.queue) + NewFrames(c, Step(AsWritten, a, s, lo, c))
    {
      ghost var q := Push(c.parser, b);
      buildingBuffer[builtFrameLen] := b;
      builtFrameLen := builtFrameLen + 1;
      assert buildingBuffer[..builtFrameLen] == q.built;
      CollectSpec(s, lo, c, a, tally);
      if builtFrameLen < 6 {
        back, now := 0, tally;
      } else if builtFrameLen == 6 {
        var kept := TakeLength(hal, a, q);
        back, now := 0, if kept then tally else tally.(status := MemoryProblem);
      } else if builtFrameLen == OVERHEAD + payloadLen {
        back, now := Conclude(hal, a, tally, s, lo, c);
      } else {
        back, now := 0, tally;
      }
    }

    lemma HeadSeen(p: Parser)
      requires Represents(p)
      ensures head1 <==> p.built != []
    {
    }

    /** One loop iteration of process_data on byte b. */
    method Iterate(hal: Hal, b: byte, a: Answers, tally: Tally, ghost s: seq<byte>, ghost lo: nat, ghost c: Config)
      returns (back: int, crashed: bool, now: Tally)
      requires halFunctions == hal && Represents(c.parser) && Holds(hal)
      requires lo <= c.pos < |s| && b == s[c.pos] && Sound(s, c) && !c.crashed
      modifies this, hal, buildingBuffer
      ensures halFunctions == hal && dataSavingBuff == old(dataSavingBuff)
          && dataSavingBuffSize == old(dataSavingBuffSize)
      ensures Holds(hal)
      ensures old(hal.live - Owned()) <= hal.live - Owned()
      ensures a.grow ==> hal.live - Owned() == old(hal.live - Owned())
      ensures buildingBuffer == old(buildingBuffer) || buildingBuffer == null || fresh(buildingBuffer)
      ensures var r := Step(AsWritten, a, s, lo, c);
              && Represents(r.parser) && crashed == r.crashed && c.events <= r.events
              && (!crashed ==> Does(s, lo, c, a, tally, back, now))
              && hal.queue == old(hal.queue) + NewFrames(c, r)
    {
      if !head1 || !head2 {
        HuntSpec(s, lo, c, a);
        back, crashed, now := Hunt(hal, b, a, tally, s, lo, c);
      } else {
        crashed := false;
        back, now := Collect(hal, b, a, tally, s, lo, c);
      }
    }

    /** process_data: one pass over the first len bytes of the saved chunk. s is everything parsed before and c
        the state it led to; step numbers the environment's answers. */
    method ProcessData(hal: Hal, len: nat, env: nat -> Answers, step: nat, ghost s: seq<byte>, ghost c: Config)
      returns (status: FrameStatus, ghost r: Config)
      requires halFunctions == hal && Represents(c.parser) && Holds(hal)
      requires Sound(s, c) && c.pos == |s| && !c.crashed && c.steps == step
      requires len <= dataSavingBuffSize
      modifies this, hal, buildingBuffer
      ensures halFunctions == hal && dataSavingBuff == old(dataSavingBuff)
          && dataSavingBuffSize == old(dataSavingBuffSize)
      ensures r == Drain(AsWritten, env, s + old(Chunk(len)), |s|, c)
      ensures Represents(r.parser) && Holds(hal)
      ensures old(hal.live - Owned()) <= hal.live - Owned()
      ensures (forall k :: env(k).grow) ==> hal.live - Owned() == old(hal.live - Owned())
      ensures hal.queue == old(hal.queue) + NewFrames(c, r)
      ensures !r.crashed ==> status == Reported(Tallied(env, s + old(Chunk(len)), |s|, c, FRESH), r)
      ensures buildingBuffer == old(buildingBuffer) || buildingBuffer == null || fresh(buildingBuffer)
    {
      hide OnCourse, Drain, Tallied, Sound, Step, Tick, NewFrames, Represents, Reported, Owned;
      ghost var lo, t, q := |s|, s + Chunk(len), hal.queue;
      r := c;
      SoundExtends(s, Chunk(len), c);
      CallBegins(env, t, lo, c, q);
      status := NoFrames;
      if len == 0 {
        assert t == s;
        CallEnds(env, t, lo, c, c, FRESH);
        return;
      }
      var tally, n, i := FRESH, step, 0;
      while 0 <= i < len
        invariant halFunctions == hal && dataSavingBuff == old(dataSavingBuff)
            && dataSavingBuffSize == old(dataSavingBuffSize)
        invariant Chunk(len) == old(Chunk(len)) && i <= len && n == r.steps
        invariant OnCourse(env, t, lo, c, r, tally) && Represents(r.parser) && Holds(hal)
        invariant r.pos == if i >= 0 then lo + i else |t|
        invariant buildingBuffer == old(buildingBuffer) || buildingBuffer == null || fresh(buildingBuffer)
        invariant old(hal.live - Owned()) <= hal.live - Owned()
        invariant (forall k :: env(k).grow) ==> hal.live - Owned() == old(hal.live - Owned())
        invariant hal.queue == q + NewFrames(c, r)
        decreases |t| - Start(r), |t| - r.pos
      {
        ghost var m := Step(AsWritten, env(n), t, lo, r);
        assert dataSavingBuff[i] == Chunk(len)[i] == t[r.pos];
        Ready(env, t, lo, c, r, tally);
        var back, crashed, now := Iterate(hal, dataSavingBuff[i], env(n), tally, t, lo, r);
        OneIteration(env, t, lo, c, r, tally, q);
        r, tally, n := m, now, n + 1;
        if crashed {
          return;
        }
        i := i - back + 1;
      }
      HeadSeen(r.parser);
      CallEnds(env, t, lo, c, r, tally);
      status := if tally.finished == 0 && !head1 then NoFrames else tally.status;
    }

    /** The first half of mmwave_parse_data: copy the bytes into the internal buffer, growing it if needed. */
    method SaveChunk(hal: Hal, data: array<byte>, dataLen: nat, room: bool, ghost p: Parser) returns (ok: bool)
      requires halFunctions == hal && Holds(hal) && Represents(p) && dataLen <= data.Length && data !in Owned()
      modifies this`dataSavingBuff, this`dataSavingBuffSize, hal`live, dataSavingBuff
      ensures halFunctions == hal && Holds(hal) && Represents(p) && hal.live - Owned() == old(hal.live - Owned())
      ensures ok == (dataLen <= old(dataSavingBuffSize) || room)
      ensures ok ==> dataLen <= dataSavingBuffSize && Chunk(dataLen) == old(data[..dataLen])
      ensures !ok ==> hal.live == old(hal.live) && dataSavingBuff == old(dataSavingBuff)
                      && dataSavingBuffSize == old(dataSavingBuffSize)
      ensures !ok && dataSavingBuff != null ==> dataSavingBuff[..] == old(dataSavingBuff[..])
    {
      if dataLen > dataSavingBuffSize {
        var newBuff := hal.AllocMem(dataLen, room);
        if newBuff == null {
          return false;
        }
        hal.FreeMem(dataSavingBuff, dataSavingBuffSize);
        dataSavingBuff := newBuff;
        dataSavingBuffSize := dataLen;
      }
      if dataSavingBuff != null {
        forall k | 0 <= k < dataLen {
          dataSavingBuff[k] := data[k];
        }
      }
      ok := true;
    }

    /** mmwave_parse_data. Without callbacks it returns S_MMWAVE_ERR_TIMEOUT, whose number reads as
        MemoryProblem in this enum. MemoryProblem with nothing delivered means exactly that the bytes never reached
        the loop. */
    method ParseData(data: array<byte>, dataLen: nat, room: bool, env: nat -> Answers, step: nat,
                     ghost s: seq<byte>, ghost c: Config)
      returns (status: FrameStatus, ghost r: Config)
      requires dataLen <= data.Length && Represents(c.parser)
      requires Sound(s, c) && c.pos == |s| && !c.crashed && c.steps == step
      requires halFunctions != null ==> Holds(halFunctions) && data !in Owned()
      modifies this, halFunctions, buildingBuffer, dataSavingBuff
      ensures halFunctions == old(halFunctions) && Represents(r.parser)
      ensures halFunctions == null ==> r == c && status == MemoryProblem
      ensures halFunctions != null ==>
        var hal := halFunctions;
        && Holds(hal) && old(Others()) <= Others() && ((forall k :: env(k).grow) ==> Others() == old(Others()))
        && hal.queue == old(Queue()) + NewFrames(c, r)
        && (if dataLen <= old(dataSavingBuffSize) || room
            then && r == Drain(AsWritten, env, s + old(data[..dataLen]), |s|, c)
                 && (!r.crashed ==> status == Reported(Tallied(env, s + old(data[..dataLen]), |s|, c, FRESH), r))
            else r == c && status == MemoryProblem)
      ensures !r.crashed ==>
        (status == MemoryProblem && NewFrames(c, r) == [] <==>
           halFunctions == null || (dataLen > old(dataSavingBuffSize) && !room))
    {
      hide Represents, Sound, Drain, Tallied, Reported, NewFrames;
      NothingNew(c);
      status, r := MemoryProblem, c;
      if halFunctions != null {
        var saved := SaveChunk(halFunctions, data, dataLen, room, c.parser);
        if saved {
          status, r := ProcessData(halFunctions, dataLen, env, step, s, c);
          if !r.crashed {
            StatusMeaning(env, s, old(data[..dataLen]), c);
          }
        }
      }
    }

    /** Live blocks that are not the core's two buffers. */
    ghost function Others(): set<array<byte>>
      reads this, halFunctions
    {
      if halFunctions == null then {} else halFunctions.live - Owned()
    }

    ghost function Queue(): seq<seq<byte>>
      reads this, halFunctions
    {
      if halFunctions == null then [] else halFunctions.queue
    }

    /** mmwave_core_init. */
    method CoreInit(granted: bool, ghost p: Parser) returns (ok: bool)
      requires Backed(p) && (halFunctions != null ==> Holds(halFunctions))
      modifies this, halFunctions
      ensures halFunctions == old(halFunctions)
      ensures halFunctions == null ==> !ok
      ensures halFunctions != null ==>
        && Represents(Restart(p, granted)) && Holds(halFunctions) && ok == Restart(p, granted).hasBuffer
        && dataSavingBuff == old(dataSavingBuff) && dataSavingBuffSize == old(dataSavingBuffSize)
        && Others() == old(Others())
    {
      if halFunctions == null {
        return false;
      }
      RestartParser(halFunctions, granted, p);
      ok := buildingBuffer != null;
    }

    /** mmwave_core_stop gives both buffers back and unbinds the callbacks: until they are bound again,
        ParseData parses nothing. */
    method CoreStop(ghost p: Parser) returns (ok: bool)
      requires Represents(p) && (halFunctions != null ==> Holds(halFunctions))
      requires buildingBuffer != null ==> parsingBuffCurrentSize == buildingBuffer.Length
      modifies this, if halFunctions == null then {} else {halFunctions}
      ensures ok == (old(halFunctions) != null) && halFunctions == null
      ensures ok ==> Represents(Parser([], false, 0, 0)) && Owned() == {} && dataSavingBuffSize == 0
      ensures old(halFunctions) != null ==>
        old(halFunctions).live == old(Others())
    {
      if halFunctions == null {
        return false;
      }
      FreeBuilding(halFunctions);
      head1 := false;
      head2 := false;
      builtFrameLen := 0;
      payloadLen := 0;
      FreeSaving(halFunctions);
      halFunctions := null;
      bigFramesCount := 0;
      ok := true;
    }

    method FreeBuilding(hal: Hal)
      requires buildingBuffer != null ==> buildingBuffer in hal.live && parsingBuffCurrentSize == buildingBuffer.Length
      modifies this`buildingBuffer, this`parsingBuffCurrentSize, hal`live
      ensures buildingBuffer == null && parsingBuffCurrentSize == 0
      ensures hal.live == if old(buildingBuffer) == null then old(hal.live) else old(hal.live) - {old(buildingBuffer)}
    {
      hal.FreeMem(buildingBuffer, parsingBuffCurrentSize);
      buildingBuffer := null;
      parsingBuffCurrentSize := 0;
    }

    method FreeSaving(hal: Hal)
      requires dataSavingBuff != null ==> dataSavingBuff in hal.live && dataSavingBuff.Length == dataSavingBuffSize
      modifies this`dataSavingBuff, this`dataSavingBuffSize, hal`live
      ensures dataSavingBuff == null && dataSavingBuffSize == 0
      ensures hal.live == if old(dataSavingBuff) == null then old(hal.live) else old(hal.live) - {old(dataSavingBuff)}
    {
      hal.FreeMem(dataSavingBuff, dataSavingBuffSize);
      dataSavingBuff := null;
      dataSavingBuffSize := 0;
    }

    /** mmwave_build_frame: the bytes of Frame, in a block of the caller's own. */
    method BuildFrame(payload: array<byte>, payloadLen: nat, ctrl: byte, cmd: byte, granted: bool)
      returns (out: array?<byte>)
      requires payloadLen <= payload.Length
      modifies halFunctions
      ensures out != null <==> halFunctions != null && granted
      ensures out != null ==>
        && fresh(out) && out[..] == Frame(ctrl, cmd, payload[..payloadLen])
        && halFunctions.live == old(if halFunctions == null then {} else halFunctions.live) + {out}
    {
      if halFunctions == null {
        return null;
      }
      out := halFunctions.AllocMem(payloadLen + OVERHEAD, granted);
      if out == null {
        return;
      }
      var payload16Len := payloadLen % 0x10000;
      out[0], out[1], out[2], out[3] := HEADER1, HEADER2, ctrl, cmd;
      out[4], out[5] := payload16Len / 0x100, payloadLen % 0x100;
      ghost var head := Head(ctrl, cmd, payloadLen);
      assert out[..6] == head;
      CopyPayload(out, payload, payloadLen);
      var sum := TxSum(payload, payloadLen, ctrl, cmd);
      hide Sum, Head;
      ghost var covered := head + payload[..payloadLen];
      out[6 + payloadLen] := sum % 0x100;
      out[7 + payloadLen] := FOOTER1;
      out[8 + payloadLen] := FOOTER2;
      assert out[..6 + payloadLen] == covered;
      assert out[..] == covered + [Sum(covered) % 0x100, FOOTER1, FOOTER2];
    }
  }

  method CopyPayload(out: array<byte>, payload: array<byte>, payloadLen: nat)
    requires payloadLen <= payload.Length && payloadLen + OVERHEAD <= out.Length && out != payload
    modifies out
    ensures out[..6] == old(out[..6]) && out[..payloadLen + 6] == out[..6] + payload[..payloadLen]
  {
    for i := 6 to payloadLen + 6
      invariant out[..6] == old(out[..6])
      invariant forall k :: 6 <= k < i ==> out[k] == payload[k - 6]
    {
      out[i] := payload[i - 6];
    }
  }

  lemma HeadSumLowByte(ctrl: byte, cmd: byte, n: nat)
    ensures (HEADER1 as int + HEADER2 + ctrl + cmd + n % 0x10000 / 0x100 + n % 0x100) % 0x10000 % 0x100
         == Sum(Head(ctrl, cmd, n)) % 0x100
  {
    hide Sum, Head;
    SumHead(ctrl, cmd, n);
    var exact := Sum(Head(ctrl, cmd, n));
    SameLowByte(exact, exact % 0x10000, 0x100 * (exact / 0x10000));
  }

  /** The checksum of a frame to send, added up in 16 bits. */
  method TxSum(payload: array<byte>, payloadLen: nat, ctrl: byte, cmd: byte) returns (sum: nat)
    requires payloadLen <= payload.Length
    ensures sum % 0x100 == Sum(Head(ctrl, cmd, payloadLen) + payload[..payloadLen]) % 0x100
  {
    ghost var head := Head(ctrl, cmd, payloadLen);
    var n := payloadLen % 0x10000;
    sum := (HEADER1 as int + HEADER2 + ctrl + cmd + n / 0x100 + payloadLen % 0x100) % 0x10000;
    hide Sum, Head;
    assert head + payload[..0] == head;
    HeadSumLowByte(ctrl, cmd, payloadLen);
    for j := 0 to payloadLen
      invariant sum % 0x100 == Sum(head + payload[..j]) % 0x100
    {
      assert head + payload[..j + 1] == head + payload[..j] + [payload[j]];
      SumSnoc(head + payload[..j], payload[j]);
      Wrap16(sum, payload[j], Sum(head + payload[..j]));
      sum := (sum + payload[j]) % 0x10000;
    }
  }

  /** The call that began in c has reached r with the given tally; what remains decides both results alike. */
  ghost predicate OnCourse(env: nat -> Answers, s: seq<byte>, lo: nat, c: Config, r: Config, tally: Tally)
    requires lo <= c.pos <= |s|
  {
    && lo <= r.pos <= |s| && Sound(s, r) && !r.crashed && c.events <= r.events
    && Drain(AsWritten, env, s, lo, c) == Drain(AsWritten, env, s, lo, r)
    && Tallied(env, s, lo, c, FRESH) == Tallied(env, s, lo, r, tally)
  }

  lemma CallBegins(env: nat -> Answers, s: seq<byte>, lo: nat, c: Config, q: seq<seq<byte>>)
    requires lo <= c.pos <= |s| && Sound(s, c) && !c.crashed
    ensures OnCourse(env, s, lo, c, c, FRESH) && q + NewFrames(c, c) == q
  {
    NothingNew(c);
  }

  lemma Ready(env: nat -> Answers, s: seq<byte>, lo: nat, c: Config, r: Config, tally: Tally)
    requires lo <= c.pos <= |s| && OnCourse(env, s, lo, c, r, tally)
    ensures lo <= r.pos <= |s| && Sound(s, r) && !r.crashed
  {
  }

  /** What a loop iteration leaves unchanged and what it adds. */
  lemma OneIteration(env: nat -> Answers, s: seq<byte>, lo: nat, c: Config, r: Config, tally: Tally, q: seq<seq<byte>>)
    requires lo <= c.pos <= |s| && OnCourse(env, s, lo, c, r, tally) && r.pos < |s|
    requires r.events <= Step(AsWritten, env(r.steps), s, lo, r).events
    ensures var a := env(r.steps);
            var m := Step(AsWritten, a, s, lo, r);
            && m.steps == r.steps + 1
            && (!m.crashed ==> OnCourse(env, s, lo, c, m, Tick(a, r, m, tally)))
            && (m.crashed ==> m == Drain(AsWritten, env, s, lo, c))
            && q + NewFrames(c, r) + NewFrames(r, m) == q + NewFrames(c, m)
  {
    hide Sound, NewFrames, Tick, Genuine;
    var m := Step(AsWritten, env(r.steps), s, lo, r);
    StepCounts(AsWritten, env(r.steps), s, lo, r);
    hide Step;
    StepIsSound(AsWritten, env(r.steps), s, lo, r);
    NewFramesAdd(c, r, m);
    assert q + NewFrames(c, r) + NewFrames(r, m) == q + (NewFrames(c, r) + NewFrames(r, m));
    assert Drain(AsWritten, env, s, lo, r) == Drain(AsWritten, env, s, lo, m);
  }

  lemma CallEnds(env: nat -> Answers, s: seq<byte>, lo: nat, c: Config, r: Config, tally: Tally)
    requires lo <= c.pos <= |s| && OnCourse(env, s, lo, c, r, tally) && r.pos == |s|
    ensures r == Drain(AsWritten, env, s, lo, c) && tally == Tallied(env, s, lo, c, FRESH)
    ensures Reported(tally, r) == if tally.finished == 0 && r.parser.built == [] then NoFrames else tally.status
  {
  }

  lemma HuntSpec(s: seq<byte>, lo: nat, c: Config, a: Answers)
    requires lo <= c.pos < |s| && |c.parser.built| < 2 && !c.crashed
    ensures var r := Step(AsWritten, a, s, lo, c);
            r.events == c.events && NewFrames(c, r) == [] && r.lossy == c.lossy && r.pos >= lo
  {
    NothingNew(c);
  }

  /** Moving the index by 1 - back and leaving the tally at now is what Step and Tick say. */
  ghost predicate Does(s: seq<byte>, lo: nat, c: Config, a: Answers, tally: Tally, back: int, now: Tally)
    requires lo <= c.pos < |s|
  {
    var r := Step(AsWritten, a, s, lo, c);
    && !r.crashed && c.events <= r.events
    && now == Tick(a, c, r, tally)
    && (if c.pos + 1 - back >= lo then r.pos == c.pos + 1 - back && r.lossy == c.lossy
        else r.pos == |s| && r.lossy)
  }

  lemma ConcludeSpec(s: seq<byte>, lo: nat, c: Config, a: Answers)
    requires Completes(s, c) && lo <= c.pos && !c.crashed
    ensures var q := Push(c.parser, s[c.pos]);
            var r := Step(AsWritten, a, s, lo, c);
            && |q.built| == OVERHEAD + LenField(q.built) && q.built[0] == HEADER1 && q.built[1] == HEADER2
            && !r.crashed && c.events <= r.events && r.parser == Restart(q, a.restart)
            && NewFrames(c, r) == (if WellFormed(q.built) && a.frame && a.save then [Body(q.built)] else [])
            && (forall t :: Tick(a, c, r, t) ==
                  if !WellFormed(q.built) then t
                  else if !a.frame then t.(status := MemoryProblem)
                  else if a.save then Tally(FrameOk, t.finished + 1) else t.(status := QueueFull))
            && (if WellFormed(q.built) then r.pos == c.pos + 1 && r.lossy == c.lossy
                else if c.pos - 6 >= lo then r.pos == c.pos - 6 && r.lossy == c.lossy
                else r.pos == |s| && r.lossy)
  {
    StepDecides(AsWritten, a, s, lo, c);
    PushKeepsTail(s, c);
    var e := Verdict(a, Start(c), s[Start(c)..c.pos + 1]);
    assert Step(AsWritten, a, s, lo, c).events[|c.events|..] == [e];
    assert Delivered([e]) == if e.Accept? && e.fate.Taken? then [Body(e.frame)] else [];
    assert LenField(e.frame) == LenField(c.parser.built);
  }

  lemma CollectSpec(s: seq<byte>, lo: nat, c: Config, a: Answers, tally: Tally)
    requires lo <= c.pos < |s| && Capacity(c.parser) && |c.parser.built| >= 2 && !c.crashed
    requires Tail(s, c) && Candidate(c.parser.built)
    ensures var q := Push(c.parser, s[c.pos]);
            var n := |q.built|;
            && (n == 6 ==> Step(AsWritten, a, s, lo, c).parser == ReadLength(q, a).0)
            && (n == 6 ==>
                  Does(s, lo, c, a, tally, 0, if ReadLength(q, a).1 then tally else tally.(status := MemoryProblem)))
            && (n > 6 ==> LenField(q.built) == LenField(c.parser.built))
            && (n > 6 ==> (Completes(s, c) <==> n == OVERHEAD + LenField(q.built)))
            && (n != 6 && (n < 6 || n != OVERHEAD + LenField(q.built)) ==>
                  Step(AsWritten, a, s, lo, c).parser == q && Does(s, lo, c, a, tally, 0, tally))
            && (!Completes(s, c) ==> NewFrames(c, Step(AsWritten, a, s, lo, c)) == [])
  {
    PushKeepsTail(s, c);
    var q := Push(c.parser, s[c.pos]);
    if |q.built| > 6 {
      assert LenField(q.built) == LenField(c.parser.built);
    }
    if !Completes(s, c) {
      StepMoves(AsWritten, a, s, lo, c);
      assert c.events[|c.events|..] == [];
    }
  }
}
