/** The bytes on the wire, one by one: byte order, offsets, tags and enum values. */
module Layout {
  import opened Types
  import opened Codec
  import opened Inbound
  import opened Outbound

  lemma {:induction false} LittleEndian(width: nat, n: nat, i: nat)
    requires i < width
    ensures Pow256(i) > 0 && ToLE(width, n)[i] == n / Pow256(i) % 256
    decreases width
  {
    PowPositive(i);
    if i > 0 {
      LittleEndian(width - 1, n / 256, i - 1);
      DivDiv(n, Pow256(i - 1));
    }
  }

  lemma {:induction false} PowPositive(i: nat)
    ensures Pow256(i) > 0
  {
    if i > 0 {
      PowPositive(i - 1);
    }
  }

  lemma DivDiv(n: nat, d: nat)
    requires d > 0
    ensures (n / 256) / d == n / (256 * d)
  {
    var q, r := n / 256 / d, n / 256 % d;
    assert n / 256 == q * d + r;
    assert n == 256 * (q * d + r) + n % 256;
    var rest := 256 * r + n % 256;
    assert rest < 256 * d by { assert 256 * r + 255 < 256 * (r + 1) <= 256 * d; }
    assert 256 * (q * d + r) == q * (256 * d) + 256 * r;
    assert n == q * (256 * d) + rest;
    QuotientIs(n, 256 * d, q, rest);
  }

  lemma QuotientIs(n: nat, d: nat, q: nat, r: nat)
    requires d > 0 && r < d && n == q * d + r
    ensures n / d == q
  {
    var e := n / d - q;
    assert n == d * (n / d) + n % d;
    assert d * e == r - n % d;
    if e >= 1 {
      AtLeast(d, e);
      assert false;
    } else if e <= -1 {
      AtLeast(d, -e);
      assert false;
    }
  }

  lemma AtLeast(d: nat, e: int)
    requires e >= 1
    ensures d * e >= d && d * (-e) == -(d * e)
  {
  }

  /** A 64-bit word at an offset, lowest byte first. */
  ghost predicate WordAt(f: seq<Byte>, at: nat, n: nat) {
    at + 8 <= |f| && forall i :: 0 <= i < 8 ==> Pow256(i) > 0 && f[at + i] == n / Pow256(i) % 256
  }

  lemma WordIs(f: seq<Byte>, at: nat, n: nat)
    requires at + 8 <= |f| && f[at..at + 8] == U64(n)
    ensures WordAt(f, at, n)
  {
    forall i | 0 <= i < 8
      ensures Pow256(i) > 0 && f[at + i] == n / Pow256(i) % 256
    {
      LittleEndian(8, n, i);
      assert f[at + i] == f[at..at + 8][i];
    }
  }

  lemma WordNext(f: seq<Byte>, at: nat, n: nat, tail: seq<Byte>)
    requires at <= |f| && f[at..] == U64(n) + tail
    ensures WordAt(f, at, n) && f[at + 8..] == tail
  {
    hide U64, WordAt;
    Peel(f, at, U64(n), tail);
    WordIs(f, at, n);
  }

  /** New order: tag, order id, account id, side, price, quantity, kind, time in force, client timestamp. */
  lemma NewOrderLayout(c: Command)
    requires c.NewOrder?
    ensures var f := CommandBytes(c);
            && |f| == 44 && f[0] == 1 && WordAt(f, 1, c.key.order) && WordAt(f, 9, c.key.account)
            && f[17] == (if c.side.Buy? then 0 else 1) && WordAt(f, 18, c.price) && WordAt(f, 26, c.qty)
            && f[34] == (if c.kind.Limit? then 0 else 1)
            && f[35] == (if c.tif.Gtc? then 0 else if c.tif.Ioc? then 1 else if c.tif.Fok? then 2 else 3)
            && WordAt(f, 36, c.clientTs)
  {
    hide U64, WordAt;
    var f := CommandBytes(c);
    var r7 := U64(c.clientTs) + [];
    var r6 := [TifByte(c.tif)] + r7;
    var r5 := [KindByte(c.kind)] + r6;
    var r4 := U64(c.qty) + r5;
    var r3 := U64(c.price) + r4;
    var r2 := [SideByte(c.side)] + r3;
    var r1 := U64(c.key.account) + r2;
    var r0 := U64(c.key.order) + r1;
    assert f[0..] == [1] + r0;
    Peel(f, 0, [1], r0);
    WordNext(f, 1, c.key.order, r1);
    WordNext(f, 9, c.key.account, r2);
    Peel(f, 17, [SideByte(c.side)], r3);
    WordNext(f, 18, c.price, r4);
    WordNext(f, 26, c.qty, r5);
    Peel(f, 34, [KindByte(c.kind)], r6);
    Peel(f, 35, [TifByte(c.tif)], r7);
    WordNext(f, 36, c.clientTs, []);
  }

  /** The other five commands: tag, then order id before account id, then the new terms, or the flag. */
  lemma CommandLayout(c: Command)
    ensures var f := CommandBytes(c);
            match c
            case NewOrder(_, _, _, _, _, _, _) => true
            case CancelOrder(k) => |f| == 17 && f[0] == 2 && WordAt(f, 1, k.order) && WordAt(f, 9, k.account)
            case CancelReplace(k, newPrice, newQty) =>
              && |f| == 33 && f[0] == 3 && WordAt(f, 1, k.order) && WordAt(f, 9, k.account)
              && WordAt(f, 17, newPrice) && WordAt(f, 25, newQty)
            case MassCancel(a) => |f| == 9 && f[0] == 4 && WordAt(f, 1, a)
            case KillSwitch(engaged) => f == [5, if engaged then 1 else 0]
            case Snapshot => f == [6]
  {
    hide U64, WordAt;
    var f := CommandBytes(c);
    assert f[0..] == f;
    match c {
      case NewOrder(_, _, _, _, _, _, _) =>
      case CancelOrder(k) =>
        Peel(f, 0, [2], U64(k.order) + (U64(k.account) + []));
        WordNext(f, 1, k.order, U64(k.account) + []);
        WordNext(f, 9, k.account, []);
      case CancelReplace(k, newPrice, newQty) =>
        Peel(f, 0, [3], U64(k.order) + (U64(k.account) + (U64(newPrice) + (U64(newQty) + []))));
        WordNext(f, 1, k.order, U64(k.account) + (U64(newPrice) + (U64(newQty) + [])));
        WordNext(f, 9, k.account, U64(newPrice) + (U64(newQty) + []));
        WordNext(f, 17, newPrice, U64(newQty) + []);
        WordNext(f, 25, newQty, []);
      case MassCancel(a) =>
        Peel(f, 0, [4], U64(a) + []);
        WordNext(f, 1, a, []);
      case KillSwitch(_) =>
      case Snapshot =>
    }
  }

  /** Execution reports: tag, stream sequence, engine sequence, account id, order id, then the report's own fields. */
  lemma ReportLayout(m: Stamped)
    requires m.engineSeq.Some? && IsReport(m.event)
    ensures var f, e := EventBytes(m), m.event;
            && |f| >= 33 && WordAt(f, 1, m.seqNo) && WordAt(f, 9, m.engineSeq.value)
            && WordAt(f, 17, e.key.account) && WordAt(f, 25, e.key.order)
            && match e
               case Accepted(_, resting) => |f| == 41 && f[0] == 10 && WordAt(f, 33, resting)
               case Rejected(_, reason) => |f| == 34 && f[0] == 11 && f[33] == ReasonByte(reason)
               case Filled(_, side, price, qty, resting, state) =>
                 && |f| == 59 && f[0] == 12 && f[33] == (if side.Buy? then 0 else 1) && WordAt(f, 34, price)
                 && WordAt(f, 42, qty) && WordAt(f, 50, resting) && f[58] == (if state.PartiallyFilled? then 0 else 1)
               case Cancelled(_) => |f| == 33 && f[0] == 13
               case Replaced(_, newQty, retained) =>
                 |f| == 42 && f[0] == 14 && WordAt(f, 33, newQty) && f[41] == (if retained then 1 else 0)
               case _ => true
  {
    hide U64, U128, WordAt, Report, TouchBytes;
    var f := EventBytes(m);
    match m.event {
      case Accepted(_, resting) =>
        HeaderLayout(f, 10, m, U64(resting) + []);
        WordNext(f, 33, resting, []);
      case Rejected(_, reason) =>
        HeaderLayout(f, 11, m, [ReasonByte(reason)] + []);
        Peel(f, 33, [ReasonByte(reason)], []);
      case Filled(_, side, price, qty, resting, state) =>
        FilledLayout(f, m);
      case Cancelled(_) => HeaderLayout(f, 13, m, []);
      case Replaced(_, newQty, retained) =>
        HeaderLayout(f, 14, m, U64(newQty) + ([BoolByte(retained)] + []));
        WordNext(f, 33, newQty, [BoolByte(retained)] + []);
        Peel(f, 41, [BoolByte(retained)], []);
    }
  }

  lemma FilledLayout(f: seq<Byte>, m: Stamped)
    requires m.engineSeq.Some? && m.event.Filled? && f == EventBytes(m)
    ensures var e := m.event;
            && |f| == 59 && f[0] == 12 && WordAt(f, 1, m.seqNo) && WordAt(f, 9, m.engineSeq.value)
            && WordAt(f, 17, e.key.account) && WordAt(f, 25, e.key.order)
            && f[33] == (if e.side.Buy? then 0 else 1) && WordAt(f, 34, e.price) && WordAt(f, 42, e.qty)
            && WordAt(f, 50, e.restingQty) && f[58] == (if e.state.PartiallyFilled? then 0 else 1)
  {
    hide U64, U128, WordAt, Report, TouchBytes;
    var e := m.event;
    var r3 := [StateByte(e.state)] + [];
    var r2 := U64(e.restingQty) + r3;
    var r1 := U64(e.qty) + r2;
    var r0 := U64(e.price) + r1;
    HeaderLayout(f, 12, m, [SideByte(e.side)] + r0);
    Peel(f, 33, [SideByte(e.side)], r0);
    WordNext(f, 34, e.price, r1);
    WordNext(f, 42, e.qty, r2);
    WordNext(f, 50, e.restingQty, r3);
    Peel(f, 58, [StateByte(e.state)], []);
  }

  lemma HeaderLayout(f: seq<Byte>, tag: Byte, m: Stamped, tail: seq<Byte>)
    requires m.engineSeq.Some? && IsReport(m.event) && f == Report(tag, m, tail)
    ensures |f| == 33 + |tail| && f[0] == tag && WordAt(f, 1, m.seqNo) && WordAt(f, 9, m.engineSeq.value)
    ensures WordAt(f, 17, m.event.key.account) && WordAt(f, 25, m.event.key.order) && f[33..] == tail
  {
    hide U64, WordAt;
    var r3 := U64(m.event.key.order) + tail;
    var r2 := U64(m.event.key.account) + r3;
    var r1 := U64(m.engineSeq.value) + r2;
    var r0 := U64(m.seqNo) + r1;
    assert f[0..] == [tag] + r0;
    Peel(f, 0, [tag], r0);
    WordNext(f, 1, m.seqNo, r1);
    WordNext(f, 9, m.engineSeq.value, r2);
    WordNext(f, 17, m.event.key.account, r3);
    WordNext(f, 25, m.event.key.order, tail);
  }

  /** One touch: a flag, then price and quantity, both zero when the side is empty. */
  ghost predicate TouchAtOffset(f: seq<Byte>, at: nat, t: Touch) {
    && at + 17 <= |f| && f[at] == (if t.Some? then 1 else 0)
    && WordAt(f, at + 1, if t.Some? then t.value.0 else 0) && WordAt(f, at + 9, if t.Some? then t.value.1 else 0)
  }

  lemma TouchNext(f: seq<Byte>, at: nat, t: Touch, tail: seq<Byte>)
    requires at <= |f| && f[at..] == TouchBytes(t, tail)
    ensures TouchAtOffset(f, at, t) && f[at + 17..] == tail
  {
    hide U64, WordAt;
    var p: nat, q: nat := if t.Some? then t.value.0 else 0, if t.Some? then t.value.1 else 0;
    Peel(f, at, [BoolByte(t.Some?)], U64(p) + (U64(q) + tail));
    WordNext(f, at + 1, p, U64(q) + tail);
    WordNext(f, at + 9, q, tail);
  }

  lemma PlainLayout(f: seq<Byte>, tag: Byte, seqNo: nat, tail: seq<Byte>)
    requires f == Plain(tag, seqNo, tail)
    ensures |f| == 9 + |tail| && f[0] == tag && WordAt(f, 1, seqNo) && f[9..] == tail
  {
    hide U64, WordAt;
    assert f[0..] == [tag] + (U64(seqNo) + tail);
    Peel(f, 0, [tag], U64(seqNo) + tail);
    WordNext(f, 1, seqNo, tail);
  }

  /** Market data and snapshot rows: tag, stream sequence, then the fields; no engine sequence. */
  lemma PublicLayout(m: Stamped)
    requires !IsReport(m.event)
    ensures var f := EventBytes(m);
            && |f| >= 9 && WordAt(f, 1, m.seqNo)
            && match m.event
               case Trade(price, qty, side) =>
                 |f| == 26 && f[0] == 15 && WordAt(f, 9, price) && WordAt(f, 17, qty) && f[25] == (if side.Buy? then 0 else 1)
               case BookUpdate(bid, ask) => |f| == 43 && f[0] == 16 && TouchAtOffset(f, 9, bid) && TouchAtOffset(f, 26, ask)
               case SnapshotLevel(side, price, qty, count) =>
                 && |f| == 34 && f[0] == 17 && f[9] == (if side.Buy? then 0 else 1) && WordAt(f, 10, price)
                 && WordAt(f, 18, qty) && WordAt(f, 26, count)
               case SnapshotAccount(a, open, notional) =>
                 && |f| == 41 && f[0] == 18 && WordAt(f, 9, a) && WordAt(f, 17, open)
                 && forall i :: 0 <= i < 16 ==> Pow256(i) > 0 && f[25 + i] == notional / Pow256(i) % 256
               case SnapshotSummary(bid, ask, last, levels, accounts) =>
                 && |f| == 68 && f[0] == 19 && TouchAtOffset(f, 9, bid) && TouchAtOffset(f, 26, ask)
                 && f[43] == (if last.Some? then 1 else 0) && WordAt(f, 44, if last.Some? then last.value else 0)
                 && WordAt(f, 52, levels) && WordAt(f, 60, accounts)
               case _ => true
  {
    hide U64, U128, WordAt, Plain, TouchBytes, TouchAtOffset, Pow256;
    var f := EventBytes(m);
    match m.event {
      case Trade(price, qty, side) =>
        PlainLayout(f, 15, m.seqNo, U64(price) + (U64(qty) + ([SideByte(side)] + [])));
        WordNext(f, 9, price, U64(qty) + ([SideByte(side)] + []));
        WordNext(f, 17, qty, [SideByte(side)] + []);
        Peel(f, 25, [SideByte(side)], []);
      case BookUpdate(bid, ask) =>
        PlainLayout(f, 16, m.seqNo, TouchBytes(bid, TouchBytes(ask, [])));
        TouchSize(ask, []);
        TouchSize(bid, TouchBytes(ask, []));
        TouchNext(f, 9, bid, TouchBytes(ask, []));
        TouchNext(f, 26, ask, []);
      case SnapshotLevel(side, price, qty, count) =>
        var r := U64(price) + (U64(qty) + (U64(count) + []));
        PlainLayout(f, 17, m.seqNo, [SideByte(side)] + r);
        Peel(f, 9, [SideByte(side)], r);
        WordNext(f, 10, price, U64(qty) + (U64(count) + []));
        WordNext(f, 18, qty, U64(count) + []);
        WordNext(f, 26, count, []);
      case SnapshotAccount(_, _, _) => AccountLayout(f, m);
      case SnapshotSummary(_, _, _, _, _) => SummaryLayout(f, m);
    }
  }

  lemma AccountLayout(f: seq<Byte>, m: Stamped)
    requires m.event.SnapshotAccount? && f == EventBytes(m)
    ensures var e := m.event;
            && |f| == 41 && f[0] == 18 && WordAt(f, 1, m.seqNo) && WordAt(f, 9, e.account) && WordAt(f, 17, e.openOrders)
            && forall i :: 0 <= i < 16 ==> Pow256(i) > 0 && f[25 + i] == e.notional / Pow256(i) % 256
  {
    hide U64, WordAt, Plain, Pow256, ToLE;
    var e := m.event;
    PlainLayout(f, 18, m.seqNo, U64(e.account) + (U64(e.openOrders) + (U128(e.notional) + [])));
    WordNext(f, 9, e.account, U64(e.openOrders) + (U128(e.notional) + []));
    WordNext(f, 17, e.openOrders, U128(e.notional) + []);
    Peel(f, 25, U128(e.notional), []);
    forall i | 0 <= i < 16
      ensures Pow256(i) > 0 && f[25 + i] == e.notional / Pow256(i) % 256
    {
      LittleEndian(16, e.notional, i);
      assert f[25 + i] == f[25..41][i];
    }
  }

  lemma SummaryLayout(f: seq<Byte>, m: Stamped)
    requires m.event.SnapshotSummary? && f == EventBytes(m)
    ensures var e := m.event;
            && |f| == 68 && f[0] == 19 && WordAt(f, 1, m.seqNo) && TouchAtOffset(f, 9, e.bestBid) && TouchAtOffset(f, 26, e.bestAsk)
            && f[43] == (if e.lastTrade.Some? then 1 else 0) && WordAt(f, 44, if e.lastTrade.Some? then e.lastTrade.value else 0)
            && WordAt(f, 52, e.levelCount) && WordAt(f, 60, e.accountCount)
  {
    hide U64, WordAt, Plain, TouchBytes, TouchAtOffset;
    var e := m.event;
    var last: nat := if e.lastTrade.Some? then e.lastTrade.value else 0;
    var r1 := U64(last) + (U64(e.levelCount) + (U64(e.accountCount) + []));
    var r0 := [BoolByte(e.lastTrade.Some?)] + r1;
    PlainLayout(f, 19, m.seqNo, TouchBytes(e.bestBid, TouchBytes(e.bestAsk, r0)));
    TouchSize(e.bestAsk, r0);
    TouchSize(e.bestBid, TouchBytes(e.bestAsk, r0));
    TouchNext(f, 9, e.bestBid, TouchBytes(e.bestAsk, r0));
    TouchNext(f, 26, e.bestAsk, r0);
    Peel(f, 43, [BoolByte(e.lastTrade.Some?)], r1);
    WordNext(f, 44, last, U64(e.levelCount) + (U64(e.accountCount) + []));
    WordNext(f, 52, e.levelCount, U64(e.accountCount) + []);
    WordNext(f, 60, e.accountCount, []);
  }

  /** The reject reasons, numbered. */
  lemma ReasonTable(b: Byte)
    ensures ReasonOfByte(b) ==
            var table := [MalformedMessage, UnknownMessageType, DuplicateOrderId, UnknownOrderId, ZeroQuantity, WouldCross,
                          NotFullyFillable, KillSwitchActive, MaxOpenOrders, MaxNotional, PriceBandViolation, ZeroPrice];
            if b < 12 then Some(table[b]) else None
  {
  }

  /** Why a frame is not a command: the first of these that applies names the reason. */
  lemma RefusalReasons(f: seq<Byte>)
    ensures DecodeCommand(f).Malformed? ==>
            DecodeCommand(f).reason ==
            if f == [] then MalformedMessage
            else if f[0] == 0 || 7 <= f[0] <= 9 || f[0] >= 20 then UnknownMessageType
            else if !WellFramed(f) then MalformedMessage
            else if f[0] == 1 && f[34] > 1 then MalformedMessage
            else if f[0] == 1 && (forall i :: 26 <= i < 34 ==> f[i] == 0) then ZeroQuantity
            else if f[0] == 3 && (forall i :: 25 <= i < 33 ==> f[i] == 0) then ZeroQuantity
            else if f[0] == 1 && f[34] == 0 && (forall i :: 18 <= i < 26 ==> f[i] == 0) then ZeroPrice
            else MalformedMessage
  {
    hide ReadU64;
    if WellFramed(f) && f[0] == 1 {
      ZeroRead(f, 26);
      ZeroRead(f, 18);
    } else if WellFramed(f) && f[0] == 3 {
      ZeroRead(f, 25);
    }
  }

  lemma ZeroRead(f: seq<Byte>, at: nat)
    requires at + 8 <= |f|
    ensures ReadU64(f, at) == 0 <==> forall i :: at <= i < at + 8 ==> f[i] == 0
  {
    hide ReadU64, U64;
    ZeroWord(f, at);
    if f[at..at + 8] == U64(0) {
      U64Read(f, at, 0);
    }
  }
}
