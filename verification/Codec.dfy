/** Little-endian integers, enum bytes, message tags and lengths. */
module Codec {
  import opened Types

  type Byte = b: nat | b < 256

  // ---- Little-endian integers ----

  function Pow256(width: nat): nat {
    if width == 0 then 1 else 256 * Pow256(width - 1)
  }

  function ToLE(width: nat, n: nat): (s: seq<Byte>)
    ensures |s| == width
  {
    if width == 0 then [] else [n % 256] + ToLE(width - 1, n / 256)
  }

  function FromLE(s: seq<Byte>): nat {
    if s == [] then 0 else s[0] + 256 * FromLE(s[1..])
  }

  /** Writing then reading an integer that fits gives it back. */
  lemma {:induction false} ReadWritten(width: nat, n: nat)
    requires n < Pow256(width)
    ensures FromLE(ToLE(width, n)) == n
  {
    if width > 0 {
      assert n / 256 < Pow256(width - 1);
      ReadWritten(width - 1, n / 256);
      assert ToLE(width, n)[1..] == ToLE(width - 1, n / 256);
    }
  }

  /** Reading then writing bytes gives them back, and the integer read fits. */
  lemma {:induction false} WriteRead(s: seq<Byte>)
    ensures FromLE(s) < Pow256(|s|)
    ensures ToLE(|s|, FromLE(s)) == s
  {
    if s != [] {
      WriteRead(s[1..]);
      assert FromLE(s) % 256 == s[0] && FromLE(s) / 256 == FromLE(s[1..]);
      assert s == [s[0]] + s[1..];
    }
  }

  lemma WordSizes()
    ensures Pow256(8) == 0x1_0000_0000_0000_0000
    ensures Pow256(16) == 0x1_0000_0000_0000_0000 * 0x1_0000_0000_0000_0000
  {
    assert Pow256(2) == 256 * Pow256(1) == 0x1_0000;
    assert Pow256(4) == 256 * Pow256(3) == 0x1_0000_0000;
    assert Pow256(6) == 256 * Pow256(5) == 0x1_0000_0000_0000;
    assert Pow256(8) == 256 * Pow256(7) == 0x1_0000_0000_0000_0000;
    assert Pow256(10) == 256 * Pow256(9) == 0x1_0000 * 0x1_0000_0000_0000_0000;
    assert Pow256(12) == 256 * Pow256(11) == 0x1_0000_0000 * 0x1_0000_0000_0000_0000;
    assert Pow256(14) == 256 * Pow256(13) == 0x1_0000_0000_0000 * 0x1_0000_0000_0000_0000;
    assert Pow256(16) == 256 * Pow256(15);
  }

  predicate IsU64(n: nat) {
    n <= 0xFFFF_FFFF_FFFF_FFFF
  }

  predicate IsU128(n: nat) {
    n < 0x1_0000_0000_0000_0000 * 0x1_0000_0000_0000_0000
  }

  function U64(n: nat): (s: seq<Byte>)
    ensures |s| == 8
  {
    ToLE(8, n)
  }

  function U128(n: nat): (s: seq<Byte>)
    ensures |s| == 16
  {
    ToLE(16, n)
  }

  function ReadU64(frame: seq<Byte>, at: nat): (n: nat)
    requires at + 8 <= |frame|
    ensures IsU64(n) && U64(n) == frame[at..at + 8]
  {
    WriteRead(frame[at..at + 8]);
    WordSizes();
    FromLE(frame[at..at + 8])
  }

  function ReadU128(frame: seq<Byte>, at: nat): (n: nat)
    requires at + 16 <= |frame|
    ensures IsU128(n) && U128(n) == frame[at..at + 16]
  {
    WriteRead(frame[at..at + 16]);
    WordSizes();
    FromLE(frame[at..at + 16])
  }

  lemma U64Read(frame: seq<Byte>, at: nat, n: nat)
    requires at + 8 <= |frame| && IsU64(n) && frame[at..at + 8] == U64(n)
    ensures ReadU64(frame, at) == n
  {
    WordSizes();
    ReadWritten(8, n);
  }

  lemma U128Read(frame: seq<Byte>, at: nat, n: nat)
    requires at + 16 <= |frame| && IsU128(n) && frame[at..at + 16] == U128(n)
    ensures ReadU128(frame, at) == n
  {
    WordSizes();
    ReadWritten(16, n);
  }

  // ---- Fields in sequence ----

  /** Read one field off the front of what is left of a frame. */
  lemma Peel(frame: seq<Byte>, at: nat, head: seq<Byte>, tail: seq<Byte>)
    requires at <= |frame| && frame[at..] == head + tail
    ensures at + |head| <= |frame| && frame[at..at + |head|] == head && frame[at + |head|..] == tail
    ensures head != [] ==> frame[at] == head[0]
  {
    assert frame[at..][..|head|] == frame[at..at + |head|];
    assert frame[at..][|head|..] == frame[at + |head|..];
  }

  /** Cut one field off the front of what is left of a frame. */
  lemma Cut(frame: seq<Byte>, at: nat, width: nat)
    requires at + width <= |frame|
    ensures frame[at..] == frame[at..at + width] + frame[at + width..]
    ensures width == 1 ==> frame[at..at + width] == [frame[at]]
  {
  }

  lemma PeelU64(frame: seq<Byte>, at: nat, n: nat, tail: seq<Byte>)
    requires at <= |frame| && frame[at..] == U64(n) + tail && IsU64(n)
    ensures at + 8 <= |frame| && ReadU64(frame, at) == n && frame[at + 8..] == tail
  {
    Peel(frame, at, U64(n), tail);
    U64Read(frame, at, n);
  }

  // ---- In-place writes into a caller's buffer ----

  /** Write the next field of a message whose full encoding is `full`; `rest` is what is still to come. */
  method WriteField(buf: array<Byte>, at: nat, bytes: seq<Byte>, ghost rest: seq<Byte>, ghost full: seq<Byte>)
    requires at + |bytes| <= buf.Length && buf[..at] + (bytes + rest) == full
    modifies buf
    ensures buf[..at + |bytes|] + rest == full
    ensures forall i :: at + |bytes| <= i < buf.Length ==> buf[i] == old(buf[i])
  {
    for i := 0 to |bytes|
      invariant buf[..at] == old(buf[..at]) && buf[at..at + i] == bytes[..i]
      invariant forall j :: at + |bytes| <= j < buf.Length ==> buf[j] == old(buf[j])
    {
      buf[at + i] := bytes[i];
    }
    assert buf[..at + |bytes|] == buf[..at] + buf[at..at + |bytes|];
    assert (buf[..at] + bytes) + rest == buf[..at] + (bytes + rest);
  }

  // ---- Enum bytes ----

  function SideByte(side: Side): Byte { if side.Buy? then 0 else 1 }
  function KindByte(kind: OrderKind): Byte { if kind.Limit? then 0 else 1 }
  function StateByte(state: FillState): Byte { if state.PartiallyFilled? then 0 else 1 }
  function BoolByte(flag: bool): Byte { if flag then 1 else 0 }

  function TifByte(tif: Tif): Byte {
    match tif
    case Gtc => 0
    case Ioc => 1
    case Fok => 2
    case PostOnly => 3
  }

  function ReasonByte(reason: RejectReason): Byte {
    match reason
    case MalformedMessage => 0
    case UnknownMessageType => 1
    case DuplicateOrderId => 2
    case UnknownOrderId => 3
    case ZeroQuantity => 4
    case WouldCross => 5
    case NotFullyFillable => 6
    case KillSwitchActive => 7
    case MaxOpenOrders => 8
    case MaxNotional => 9
    case PriceBandViolation => 10
    case ZeroPrice => 11
  }

  function SideOfByte(b: Byte): (r: Option<Side>)
    ensures forall x :: r == Some(x) <==> SideByte(x) == b
  {
    if b == 0 then Some(Buy) else if b == 1 then Some(Sell) else None
  }

  function KindOfByte(b: Byte): (r: Option<OrderKind>)
    ensures forall x :: r == Some(x) <==> KindByte(x) == b
  {
    if b == 0 then Some(Limit) else if b == 1 then Some(Market) else None
  }

  function StateOfByte(b: Byte): (r: Option<FillState>)
    ensures forall x :: r == Some(x) <==> StateByte(x) == b
  {
    if b == 0 then Some(PartiallyFilled) else if b == 1 then Some(FullyFilled) else None
  }

  function BoolOfByte(b: Byte): (r: Option<bool>)
    ensures forall x :: r == Some(x) <==> BoolByte(x) == b
  {
    if b == 0 then Some(false) else if b == 1 then Some(true) else None
  }

  function TifOfByte(b: Byte): (r: Option<Tif>)
    ensures forall x :: r == Some(x) <==> TifByte(x) == b
  {
    if b == 0 then Some(Gtc) else if b == 1 then Some(Ioc) else if b == 2 then Some(Fok) else if b == 3 then Some(PostOnly) else None
  }

  function ReasonOfByte(b: Byte): (r: Option<RejectReason>)
    ensures forall x :: r == Some(x) <==> ReasonByte(x) == b
  {
    if b == 0 then Some(MalformedMessage)
    else if b == 1 then Some(UnknownMessageType)
    else if b == 2 then Some(DuplicateOrderId)
    else if b == 3 then Some(UnknownOrderId)
    else if b == 4 then Some(ZeroQuantity)
    else if b == 5 then Some(WouldCross)
    else if b == 6 then Some(NotFullyFillable)
    else if b == 7 then Some(KillSwitchActive)
    else if b == 8 then Some(MaxOpenOrders)
    else if b == 9 then Some(MaxNotional)
    else if b == 10 then Some(PriceBandViolation)
    else if b == 11 then Some(ZeroPrice)
    else None
  }

  // ---- Tags ----

  const MAX_MESSAGE_LEN: nat := 68

  /** The total length a tag implies; inbound and outbound tags share one namespace. */
  function MessageLen(tag: Byte): (n: Option<nat>)
    ensures n.Some? ==> 0 < n.value <= MAX_MESSAGE_LEN
  {
    if tag == 1 then Some(44)
    else if tag == 2 then Some(17)
    else if tag == 3 then Some(33)
    else if tag == 4 then Some(9)
    else if tag == 5 then Some(2)
    else if tag == 6 then Some(1)
    else if tag == 10 then Some(41)
    else if tag == 11 then Some(34)
    else if tag == 12 then Some(59)
    else if tag == 13 then Some(33)
    else if tag == 14 then Some(42)
    else if tag == 15 then Some(26)
    else if tag == 16 then Some(43)
    else if tag == 17 then Some(34)
    else if tag == 18 then Some(41)
    else if tag == 19 then Some(68)
    else None
  }

  /** A frame has the length its tag implies. */
  predicate WellFramed(frame: seq<Byte>) {
    frame != [] && MessageLen(frame[0]) == Some(|frame|)
  }

  /** What a decoder can do with a frame; `Panics` covers the arm marked unreachable and out-of-range reads. */
  datatype Decoded<+T> = Decoded(value: T) | Malformed(reason: RejectReason) | Panics
}
