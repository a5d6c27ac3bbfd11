/** The MR24HPC1 frame format: what the parser accepts and what the builder produces.

    A frame is 53 59 | ctrl | cmd | length (2 bytes, high first) | payload | checksum | 54 43,
    where the checksum is the low byte of the sum of everything before it. */
module Protocol {

  type byte = b: int | 0 <= b < 0x100

  /** The bytes of several pieces in a row. */
  function Joined(pieces: seq<seq<byte>>): seq<byte> {
    if pieces == [] then [] else pieces[0] + Joined(pieces[1..])
  }

  const HEADER1: byte := 0x53
  const HEADER2: byte := 0x59
  const FOOTER1: byte := 0x54
  const FOOTER2: byte := 0x43
  /** Bytes of a frame that are not payload. */
  const OVERHEAD: nat := 9
  const MAX_PAYLOAD: nat := 0xFFFF

  /** Unbounded sum of the bytes; the source adds into a 16-bit variable (see Sum16). */
  function Sum(s: seq<byte>): nat {
    if s == [] then 0 else Sum(s[..|s| - 1]) + s[|s| - 1]
  }

  /** The same sum in the source's uint16_t, wrapping after every addition. */
  function Sum16(s: seq<byte>): nat {
    if s == [] then 0 else (Sum16(s[..|s| - 1]) + s[|s| - 1]) % 0x10000
  }

  function LenField(f: seq<byte>): (n: nat)
    requires |f| >= 6
    ensures n <= MAX_PAYLOAD
  {
    (f[4] as int) * 0x100 + f[5]
  }

  /** f is one complete frame: header, declared length, checksum and footer all agree. */
  predicate WellFormed(f: seq<byte>) {
    && |f| >= OVERHEAD
    && f[0] == HEADER1 && f[1] == HEADER2
    && |f| == OVERHEAD + LenField(f)
    && f[|f| - 2] == FOOTER1 && f[|f| - 1] == FOOTER2
    && f[|f| - 3] == Sum(f[..|f| - 3]) % 0x100
  }

  /** What the parser hands on: control word, command word, payload. */
  function Body(f: seq<byte>): seq<byte>
    requires |f| >= OVERHEAD
  {
    [f[2], f[3]] + f[6..|f| - 3]
  }

  /** The six bytes in front of a payload of n bytes; the length is cut to 16 bits. */
  function Head(ctrl: byte, cmd: byte, n: nat): seq<byte> {
    [HEADER1, HEADER2, ctrl, cmd, n % 0x10000 / 0x100, n % 0x100]
  }

  /** The bytes the builder emits. */
  function Frame(ctrl: byte, cmd: byte, payload: seq<byte>): seq<byte> {
    var covered := Head(ctrl, cmd, |payload|) + payload;
    covered + [Sum(covered) % 0x100, FOOTER1, FOOTER2]
  }

  lemma {:induction false} SumSplit(a: seq<byte>, b: seq<byte>)
    ensures Sum(a + b) == Sum(a) + Sum(b)
  {
    if b == [] {
      assert a + b == a;
    } else {
      SumSplit(a, b[..|b| - 1]);
      assert (a + b)[..|a + b| - 1] == a + b[..|b| - 1];
    }
  }

  lemma SumSnoc(s: seq<byte>, b: byte)
    ensures Sum(s + [b]) == Sum(s) + b
  {
    assert (s + [b])[..|s|] == s;
  }

  lemma SameLowByte(a: int, b: int, k: int)
    requires a == b + 0x100 * k
    ensures a % 0x100 == b % 0x100
  {
  }

  /** Dropping the sum to 16 bits after an addition does not disturb its low byte. */
  lemma Wrap16(sum: nat, b: byte, exact: nat)
    requires sum % 0x100 == exact % 0x100
    ensures (sum + b) % 0x10000 % 0x100 == (exact + b) % 0x100
  {
    SameLowByte(sum + b, (sum + b) % 0x10000, 0x100 * ((sum + b) / 0x10000));
    SameLowByte(exact + b, sum + b, exact / 0x100 - sum / 0x100);
  }

  /** The 16-bit running sum and the unbounded sum have the same low byte. */
  lemma {:induction false} Sum16LowByte(s: seq<byte>)
    ensures Sum16(s) % 0x100 == Sum(s) % 0x100
  {
    if s != [] {
      Sum16LowByte(s[..|s| - 1]);
      Wrap16(Sum16(s[..|s| - 1]), s[|s| - 1], Sum(s[..|s| - 1]));
    }
  }

  lemma SumHead(ctrl: byte, cmd: byte, n: nat)
    ensures Sum(Head(ctrl, cmd, n)) == HEADER1 as int + HEADER2 + ctrl + cmd + n % 0x10000 / 0x100 + n % 0x100
  {
    var h := Head(ctrl, cmd, n);
    assert h == [] + [h[0]] + [h[1]] + [h[2]] + [h[3]] + [h[4]] + [h[5]];
    SumSnoc([], h[0]);
    SumSnoc([] + [h[0]], h[1]);
    SumSnoc([] + [h[0]] + [h[1]], h[2]);
    SumSnoc([] + [h[0]] + [h[1]] + [h[2]], h[3]);
    SumSnoc([] + [h[0]] + [h[1]] + [h[2]] + [h[3]], h[4]);
    SumSnoc([] + [h[0]] + [h[1]] + [h[2]] + [h[3]] + [h[4]], h[5]);
  }

  /** The builder's output is a frame exactly when the payload length fits the length field,
      and then the parser's extraction gives back what was built in. */
  lemma BuiltFrameIsWellFormed(ctrl: byte, cmd: byte, payload: seq<byte>)
    ensures WellFormed(Frame(ctrl, cmd, payload)) <==> |payload| <= MAX_PAYLOAD
    ensures Body(Frame(ctrl, cmd, payload)) == [ctrl, cmd] + payload
  {
    var n := |payload|;
    var f := Frame(ctrl, cmd, payload);
    var covered := Head(ctrl, cmd, n) + payload;
    assert f[..|f| - 3] == covered;
    assert f[6..|f| - 3] == payload;
    assert LenField(f) == n % 0x10000;
  }

  /** Every frame the parser can accept is the one the builder makes from its contents. */
  lemma WellFormedIsBuilt(f: seq<byte>)
    requires WellFormed(f)
    ensures f == Frame(f[2], f[3], f[6..|f| - 3])
    ensures |f[6..|f| - 3]| == LenField(f)
  {
    var payload := f[6..|f| - 3];
    assert f[..|f| - 3] == Head(f[2], f[3], |payload|) + payload;
  }
}
