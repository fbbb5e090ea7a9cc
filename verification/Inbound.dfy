/** The six inbound messages: encoding and validating decoding are inverse on exactly the valid commands. */
module Inbound {
  import opened Types
  import opened Codec

  /** What a decoded command satisfies: 64-bit fields, nonzero quantities, nonzero price for limit orders. */
  predicate WireValid(c: Command) {
    match c
    case NewOrder(k, _, price, qty, kind, _, ts) =>
      IsU64(k.account) && IsU64(k.order) && IsU64(qty) && IsU64(ts) && qty > 0 && (kind.Limit? ==> price > 0)
    case CancelOrder(k) => IsU64(k.account) && IsU64(k.order)
    case CancelReplace(k, _, newQty) => IsU64(k.account) && IsU64(k.order) && IsU64(newQty) && newQty > 0
    case MassCancel(a) => IsU64(a)
    case _ => true
  }

  function CommandBytes(c: Command): (s: seq<Byte>)
    ensures WellFramed(s)
  {
    match c
    case NewOrder(k, side, price, qty, kind, tif, ts) =>
      [1] + (U64(k.order) + (U64(k.account) + ([SideByte(side)] + (U64(price) + (U64(qty)
      + ([KindByte(kind)] + ([TifByte(tif)] + (U64(ts) + []))))))))
    case CancelOrder(k) => [2] + (U64(k.order) + (U64(k.account) + []))
    case CancelReplace(k, newPrice, newQty) => [3] + (U64(k.order) + (U64(k.account) + (U64(newPrice) + (U64(newQty) + []))))
    case MassCancel(a) => [4] + (U64(a) + [])
    case KillSwitch(engaged) => [5] + ([BoolByte(engaged)] + [])
    case Snapshot => [6] + []
  }

  function DecodeNewOrder(f: seq<Byte>): Decoded<Command>
    requires |f| == 44
  {
    var kind := KindOfByte(f[34]);
    if kind.None? then Malformed(MalformedMessage)
    else
      var price, qty := ReadU64(f, 18), ReadU64(f, 26);
      if qty == 0 then Malformed(ZeroQuantity)
      else if kind.value.Limit? && price == 0 then Malformed(ZeroPrice)
      else if SideOfByte(f[17]).None? || TifOfByte(f[35]).None? then Malformed(MalformedMessage)
      else
        Decoded(NewOrder(OrderKey(ReadU64(f, 9), ReadU64(f, 1)), SideOfByte(f[17]).value, price, qty,
                         kind.value, TifOfByte(f[35]).value, ReadU64(f, 36)))
  }

  function DecodeCommand(f: seq<Byte>): Decoded<Command> {
    if f == [] then Malformed(MalformedMessage)
    else if MessageLen(f[0]).None? then Malformed(UnknownMessageType)
    else if |f| != MessageLen(f[0]).value then Malformed(MalformedMessage)
    else if f[0] == 1 then DecodeNewOrder(f)
    else if f[0] == 2 then Decoded(CancelOrder(OrderKey(ReadU64(f, 9), ReadU64(f, 1))))
    else if f[0] == 3 then
      if ReadU64(f, 25) == 0 then Malformed(ZeroQuantity)
      else Decoded(CancelReplace(OrderKey(ReadU64(f, 9), ReadU64(f, 1)), ReadU64(f, 17), ReadU64(f, 25)))
    else if f[0] == 4 then Decoded(MassCancel(ReadU64(f, 1)))
    else if f[0] == 5 then
      if BoolOfByte(f[1]).None? then Malformed(MalformedMessage) else Decoded(KillSwitch(BoolOfByte(f[1]).value))
    else if f[0] == 6 then Decoded(Snapshot)
    else Panics
  }

  method EncodeNewOrder(c: Command, buf: array<Byte>)
    requires buf.Length >= MAX_MESSAGE_LEN && c.NewOrder?
    modifies buf
    ensures buf[..44] == CommandBytes(c)
    ensures forall i :: 44 <= i < buf.Length ==> buf[i] == old(buf[i])
  {
    hide U64;
    ghost var full := CommandBytes(c);
    ghost var r8 := [];
    ghost var r7 := U64(c.clientTs) + r8;
    ghost var r6 := [TifByte(c.tif)] + r7;
    ghost var r5 := [KindByte(c.kind)] + r6;
    ghost var r4 := U64(c.qty) + r5;
    ghost var r3 := U64(c.price) + r4;
    ghost var r2 := [SideByte(c.side)] + r3;
    ghost var r1 := U64(c.key.account) + r2;
    ghost var r0 := U64(c.key.order) + r1;
    assert buf[..0] == [] && [] + ([1] + r0) == full;
    WriteField(buf, 0, [1], r0, full);
    WriteField(buf, 1, U64(c.key.order), r1, full);
    WriteField(buf, 9, U64(c.key.account), r2, full);
    WriteField(buf, 17, [SideByte(c.side)], r3, full);
    WriteField(buf, 18, U64(c.price), r4, full);
    WriteField(buf, 26, U64(c.qty), r5, full);
    WriteField(buf, 34, [KindByte(c.kind)], r6, full);
    WriteField(buf, 35, [TifByte(c.tif)], r7, full);
    WriteField(buf, 36, U64(c.clientTs), r8, full);
  }

  /** Write one command into a caller-owned buffer. */
  method EncodeCommand(c: Command, buf: array<Byte>) returns (len: nat)
    requires buf.Length >= MAX_MESSAGE_LEN
    modifies buf
    ensures len <= buf.Length && buf[..len] == CommandBytes(c)
    ensures forall i :: len <= i < buf.Length ==> buf[i] == old(buf[i])
  {
    hide U64;
    ghost var full := CommandBytes(c);
    assert buf[..0] == [] && [] + full == full;
    match c {
      case NewOrder(_, _, _, _, _, _, _) =>
        EncodeNewOrder(c, buf);
        len := 44;
      case CancelOrder(k) =>
        WriteField(buf, 0, [2], U64(k.order) + (U64(k.account) + []), full);
        WriteField(buf, 1, U64(k.order), U64(k.account) + [], full);
        WriteField(buf, 9, U64(k.account), [], full);
        len := 17;
      case CancelReplace(k, newPrice, newQty) =>
        WriteField(buf, 0, [3], U64(k.order) + (U64(k.account) + (U64(newPrice) + (U64(newQty) + []))), full);
        WriteField(buf, 1, U64(k.order), U64(k.account) + (U64(newPrice) + (U64(newQty) + [])), full);
        WriteField(buf, 9, U64(k.account), U64(newPrice) + (U64(newQty) + []), full);
        WriteField(buf, 17, U64(newPrice), U64(newQty) + [], full);
        WriteField(buf, 25, U64(newQty), [], full);
        len := 33;
      case MassCancel(a) =>
        WriteField(buf, 0, [4], U64(a) + [], full);
        WriteField(buf, 1, U64(a), [], full);
        len := 9;
      case KillSwitch(engaged) =>
        WriteField(buf, 0, [5], [BoolByte(engaged)] + [], full);
        WriteField(buf, 1, [BoolByte(engaged)], [], full);
        len := 2;
      case Snapshot =>
        WriteField(buf, 0, [6], [], full);
        len := 1;
    }
  }

  lemma DecodeEncodedNewOrder(c: Command)
    requires WireValid(c) && c.NewOrder?
    ensures DecodeCommand(CommandBytes(c)) == Decoded(c)
  {
    hide ReadU64, U64;
    var f := CommandBytes(c);
    var r7 := U64(c.clientTs) + [];
    var r6 := [TifByte(c.tif)] + r7;
    var r5 := [KindByte(c.kind)] + r6;
    var r4 := U64(c.qty) + r5;
    var r3 := U64(c.price) + r4;
    var r2 := [SideByte(c.side)] + r3;
    var r1 := U64(c.key.account) + r2;
    var r0 := U64(c.key.order) + r1;
    assert f[0..] == [1] + r0;
    Peel(f, 0, [1], r0);
    PeelU64(f, 1, c.key.order, r1);
    PeelU64(f, 9, c.key.account, r2);
    Peel(f, 17, [SideByte(c.side)], r3);
    PeelU64(f, 18, c.price, r4);
    PeelU64(f, 26, c.qty, r5);
    Peel(f, 34, [KindByte(c.kind)], r6);
    Peel(f, 35, [TifByte(c.tif)], r7);
    PeelU64(f, 36, c.clientTs, []);
  }

  lemma DecodeEncodedReplace(c: Command)
    requires WireValid(c) && c.CancelReplace?
    ensures DecodeCommand(CommandBytes(c)) == Decoded(c)
  {
    hide ReadU64, U64;
    var f := CommandBytes(c);
    var r3 := U64(c.newQty) + [];
    var r2 := U64(c.newPrice) + r3;
    var r1 := U64(c.key.account) + r2;
    var r0 := U64(c.key.order) + r1;
    assert f[0..] == [3] + r0;
    Peel(f, 0, [3], r0);
    PeelU64(f, 1, c.key.order, r1);
    PeelU64(f, 9, c.key.account, r2);
    PeelU64(f, 17, c.newPrice, r3);
    PeelU64(f, 25, c.newQty, []);
  }

  /** Every valid command survives encoding and decoding. */
  lemma DecodeEncoded(c: Command)
    requires WireValid(c)
    ensures DecodeCommand(CommandBytes(c)) == Decoded(c)
  {
    hide ReadU64, U64;
    var f := CommandBytes(c);
    assert f[0..] == f;
    match c {
      case NewOrder(_, _, _, _, _, _, _) => DecodeEncodedNewOrder(c);
      case CancelOrder(k) =>
        Peel(f, 0, [2], U64(k.order) + (U64(k.account) + []));
        PeelU64(f, 1, k.order, U64(k.account) + []);
        PeelU64(f, 9, k.account, []);
      case CancelReplace(_, _, _) => DecodeEncodedReplace(c);
      case MassCancel(a) =>
        Peel(f, 0, [4], U64(a) + []);
        PeelU64(f, 1, a, []);
      case KillSwitch(_) =>
      case Snapshot =>
    }
  }

  lemma EncodeDecodedNewOrder(f: seq<Byte>)
    requires |f| == 44 && f[0] == 1 && DecodeNewOrder(f).Decoded?
    ensures CommandBytes(DecodeNewOrder(f).value) == f
  {
    hide ReadU64, U64;
    assert f[0..] == f;
    Cut(f, 0, 1);
    Cut(f, 1, 8);
    Cut(f, 9, 8);
    Cut(f, 17, 1);
    Cut(f, 18, 8);
    Cut(f, 26, 8);
    Cut(f, 34, 1);
    Cut(f, 35, 1);
    Cut(f, 36, 8);
    assert f[44..] == [];
  }

  /** A frame that decodes is the encoding of what it decodes to: no two frames mean the same command. */
  lemma EncodeDecoded(f: seq<Byte>)
    requires DecodeCommand(f).Decoded?
    ensures WireValid(DecodeCommand(f).value) && CommandBytes(DecodeCommand(f).value) == f
  {
    hide ReadU64, U64;
    assert f[0..] == f;
    Cut(f, 0, 1);
    if f[0] == 1 {
      EncodeDecodedNewOrder(f);
    } else if f[0] == 2 {
      Cut(f, 1, 8);
      Cut(f, 9, 8);
      assert f[17..] == [];
    } else if f[0] == 3 {
      Cut(f, 1, 8);
      Cut(f, 9, 8);
      Cut(f, 17, 8);
      Cut(f, 25, 8);
      assert f[33..] == [];
    } else if f[0] == 4 {
      Cut(f, 1, 8);
      assert f[9..] == [];
    } else if f[0] == 5 {
      Cut(f, 1, 1);
      assert f[2..] == [];
    } else {
      assert f[1..] == [];
    }
  }

  /** The arm marked unreachable is reached by exactly the well-framed outbound messages. */
  lemma CommandPanicsIff(f: seq<Byte>)
    ensures DecodeCommand(f).Panics? <==> WellFramed(f) && f[0] >= 10
  {
  }

  /** Decodable frames are exactly the encodings of valid commands. */
  lemma DecodableIff(f: seq<Byte>)
    ensures DecodeCommand(f).Decoded? <==> exists c :: WireValid(c) && CommandBytes(c) == f
  {
    if DecodeCommand(f).Decoded? {
      EncodeDecoded(f);
    }
    forall c | WireValid(c) && CommandBytes(c) == f
      ensures DecodeCommand(f).Decoded?
    {
      DecodeEncoded(c);
    }
  }
}
