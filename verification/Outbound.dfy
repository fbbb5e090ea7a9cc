/** The ten outbound messages: stamped encoding, decoding, and when the two are inverse. */
module Outbound {
  import opened Types
  import opened Codec

  /** An event as it travels: stream sequence always, engine sequence on execution reports only. */
  datatype Stamped = Stamped(seqNo: nat, engineSeq: Option<nat>, event: Event)

  predicate IsReport(e: Event) {
    e.Accepted? || e.Rejected? || e.Filled? || e.Cancelled? || e.Replaced?
  }

  predicate TouchFits(t: Touch) {
    t.Some? ==> IsU64(t.value.1)
  }

  /** Every field fits its width, and the engine sequence is there exactly on execution reports. */
  predicate Fits(m: Stamped) {
    && IsU64(m.seqNo)
    && (m.engineSeq.Some? <==> IsReport(m.event))
    && (m.engineSeq.Some? ==> IsU64(m.engineSeq.value))
    && (IsReport(m.event) ==> IsU64(m.event.key.account) && IsU64(m.event.key.order))
    && match m.event
       case Accepted(_, resting) => IsU64(resting)
       case Filled(_, _, _, qty, resting, _) => IsU64(qty) && IsU64(resting)
       case Replaced(_, newQty, _) => IsU64(newQty)
       case Trade(_, qty, _) => IsU64(qty)
       case BookUpdate(bid, ask) => TouchFits(bid) && TouchFits(ask)
       case SnapshotLevel(_, _, qty, count) => IsU64(qty) && IsU64(count)
       case SnapshotAccount(a, open, notional) => IsU64(a) && IsU64(open) && IsU128(notional)
       case SnapshotSummary(bid, ask, _, levels, accounts) =>
         TouchFits(bid) && TouchFits(ask) && IsU64(levels) && IsU64(accounts)
       case _ => true
  }

  /** Header of an execution report, in front of its own fields. */
  function Report(tag: Byte, m: Stamped, tail: seq<Byte>): seq<Byte>
    requires m.engineSeq.Some? && IsReport(m.event)
  {
    [tag] + (U64(m.seqNo) + (U64(m.engineSeq.value) + (U64(m.event.key.account) + (U64(m.event.key.order) + tail))))
  }

  /** Header of everything else. */
  function Plain(tag: Byte, seqNo: nat, tail: seq<Byte>): seq<Byte> {
    [tag] + (U64(seqNo) + tail)
  }

  /** An absent side is flagged and zero-filled. */
  function TouchBytes(t: Touch, tail: seq<Byte>): seq<Byte> {
    [BoolByte(t.Some?)]
    + (U64(if t.Some? then t.value.0 else 0) + (U64(if t.Some? then t.value.1 else 0) + tail))
  }

  function EventBytes(m: Stamped): (s: seq<Byte>)
    requires IsReport(m.event) ==> m.engineSeq.Some?
  {
    match m.event
    case Accepted(_, resting) => Report(10, m, U64(resting) + [])
    case Rejected(_, reason) => Report(11, m, [ReasonByte(reason)] + [])
    case Filled(_, side, price, qty, resting, state) =>
      Report(12, m, [SideByte(side)] + (U64(price) + (U64(qty) + (U64(resting) + ([StateByte(state)] + [])))))
    case Cancelled(_) => Report(13, m, [])
    case Replaced(_, newQty, retained) => Report(14, m, U64(newQty) + ([BoolByte(retained)] + []))
    case Trade(price, qty, side) => Plain(15, m.seqNo, U64(price) + (U64(qty) + ([SideByte(side)] + [])))
    case BookUpdate(bid, ask) => Plain(16, m.seqNo, TouchBytes(bid, TouchBytes(ask, [])))
    case SnapshotLevel(side, price, qty, count) =>
      Plain(17, m.seqNo, [SideByte(side)] + (U64(price) + (U64(qty) + (U64(count) + []))))
    case SnapshotAccount(a, open, notional) => Plain(18, m.seqNo, U64(a) + (U64(open) + (U128(notional) + [])))
    case SnapshotSummary(bid, ask, last, levels, accounts) =>
      Plain(19, m.seqNo, TouchBytes(bid, TouchBytes(ask,
        [BoolByte(last.Some?)] + (U64(if last.Some? then last.value else 0) + (U64(levels) + (U64(accounts) + []))))))
  }

  lemma HeaderSizes(tag: Byte, m: Stamped, tail: seq<Byte>)
    ensures |Plain(tag, m.seqNo, tail)| == 9 + |tail| && Plain(tag, m.seqNo, tail)[0] == tag
    ensures m.engineSeq.Some? && IsReport(m.event) ==> |Report(tag, m, tail)| == 33 + |tail| && Report(tag, m, tail)[0] == tag
  {
    hide U64;
  }

  lemma TouchSize(t: Touch, tail: seq<Byte>)
    ensures |TouchBytes(t, tail)| == 17 + |tail|
  {
    hide U64;
  }

  lemma ReportFramed(m: Stamped)
    requires m.engineSeq.Some? && IsReport(m.event)
    ensures WellFramed(EventBytes(m)) && EventBytes(m)[0] >= 10
  {
    hide U64, U128, Plain, Report, TouchBytes;
    match m.event {
      case Accepted(_, resting) => HeaderSizes(10, m, U64(resting) + []);
      case Rejected(_, reason) => HeaderSizes(11, m, [ReasonByte(reason)] + []);
      case Filled(_, side, price, qty, resting, state) =>
        HeaderSizes(12, m, [SideByte(side)] + (U64(price) + (U64(qty) + (U64(resting) + ([StateByte(state)] + [])))));
      case Cancelled(_) => HeaderSizes(13, m, []);
      case Replaced(_, newQty, retained) => HeaderSizes(14, m, U64(newQty) + ([BoolByte(retained)] + []));
    }
  }

  /** A stamped event occupies exactly the length its tag implies. */
  lemma EventFramed(m: Stamped)
    requires IsReport(m.event) ==> m.engineSeq.Some?
    ensures WellFramed(EventBytes(m)) && EventBytes(m)[0] >= 10
  {
    hide U64, U128, Plain, Report, TouchBytes;
    if IsReport(m.event) {
      ReportFramed(m);
    } else {
      match m.event {
        case Trade(price, qty, side) => HeaderSizes(15, m, U64(price) + (U64(qty) + ([SideByte(side)] + [])));
        case BookUpdate(bid, ask) =>
          TouchSize(ask, []);
          TouchSize(bid, TouchBytes(ask, []));
          HeaderSizes(16, m, TouchBytes(bid, TouchBytes(ask, [])));
        case SnapshotLevel(side, price, qty, count) =>
          HeaderSizes(17, m, [SideByte(side)] + (U64(price) + (U64(qty) + (U64(count) + []))));
        case SnapshotAccount(a, open, notional) =>
          HeaderSizes(18, m, U64(a) + (U64(open) + (U128(notional) + [])));
        case SnapshotSummary(bid, ask, last, levels, accounts) =>
          var tail := [BoolByte(last.Some?)] + (U64(if last.Some? then last.value else 0) + (U64(levels) + (U64(accounts) + [])));
          TouchSize(ask, tail);
          TouchSize(bid, TouchBytes(ask, tail));
          HeaderSizes(19, m, TouchBytes(bid, TouchBytes(ask, tail)));
      }
    }
  }

  method WriteHeader(buf: array<Byte>, tag: Byte, seqNo: nat, ghost tail: seq<Byte>)
    requires buf.Length >= MAX_MESSAGE_LEN
    modifies buf
    ensures buf[..9] + tail == Plain(tag, seqNo, tail)
    ensures forall i :: 9 <= i < buf.Length ==> buf[i] == old(buf[i])
  {
    hide U64;
    ghost var full := Plain(tag, seqNo, tail);
    assert buf[..0] == [] && [] + full == full;
    WriteField(buf, 0, [tag], U64(seqNo) + tail, full);
    WriteField(buf, 1, U64(seqNo), tail, full);
  }

  method WriteReportHeader(buf: array<Byte>, tag: Byte, m: Stamped, ghost tail: seq<Byte>)
    requires buf.Length >= MAX_MESSAGE_LEN && m.engineSeq.Some? && IsReport(m.event)
    modifies buf
    ensures buf[..33] + tail == Report(tag, m, tail)
    ensures forall i :: 33 <= i < buf.Length ==> buf[i] == old(buf[i])
  {
    hide U64;
    ghost var full := Report(tag, m, tail);
    ghost var r2 := U64(m.event.key.order) + tail;
    ghost var r1 := U64(m.event.key.account) + r2;
    WriteHeader(buf, tag, m.seqNo, U64(m.engineSeq.value) + r1);
    WriteField(buf, 9, U64(m.engineSeq.value), r1, full);
    WriteField(buf, 17, U64(m.event.key.account), r2, full);
    WriteField(buf, 25, U64(m.event.key.order), tail, full);
  }

  method WriteTouch(buf: array<Byte>, at: nat, t: Touch, ghost rest: seq<Byte>, ghost full: seq<Byte>)
    requires at + 17 <= buf.Length && buf[..at] + TouchBytes(t, rest) == full
    modifies buf
    ensures buf[..at + 17] + rest == full
    ensures forall i :: at + 17 <= i < buf.Length ==> buf[i] == old(buf[i])
  {
    hide U64;
    var p: nat, q := if t.Some? then t.value.0 else 0, if t.Some? then t.value.1 else 0;
    WriteField(buf, at, [BoolByte(t.Some?)], U64(p) + (U64(q) + rest), full);
    WriteField(buf, at + 1, U64(p), U64(q) + rest, full);
    WriteField(buf, at + 9, U64(q), rest, full);
  }

  method EncodeReport(m: Stamped, buf: array<Byte>) returns (len: nat)
    requires buf.Length >= MAX_MESSAGE_LEN && IsReport(m.event) && m.engineSeq.Some?
    modifies buf
    ensures len <= buf.Length && buf[..len] == EventBytes(m)
    ensures forall i :: len <= i < buf.Length ==> buf[i] == old(buf[i])
  {
    hide U64, Report;
    ghost var full := EventBytes(m);
    match m.event {
      case Accepted(_, resting) =>
        WriteReportHeader(buf, 10, m, U64(resting) + []);
        WriteField(buf, 33, U64(resting), [], full);
        len := 41;
      case Rejected(_, reason) =>
        WriteReportHeader(buf, 11, m, [ReasonByte(reason)] + []);
        WriteField(buf, 33, [ReasonByte(reason)], [], full);
        len := 34;
      case Filled(_, side, price, qty, resting, state) =>
        ghost var r4 := [StateByte(state)] + [];
        ghost var r3 := U64(resting) + r4;
        ghost var r2 := U64(qty) + r3;
        ghost var r1 := U64(price) + r2;
        WriteReportHeader(buf, 12, m, [SideByte(side)] + r1);
        WriteField(buf, 33, [SideByte(side)], r1, full);
        WriteField(buf, 34, U64(price), r2, full);
        WriteField(buf, 42, U64(qty), r3, full);
        WriteField(buf, 50, U64(resting), r4, full);
        WriteField(buf, 58, [StateByte(state)], [], full);
        len := 59;
      case Cancelled(_) =>
        WriteReportHeader(buf, 13, m, []);
        len := 33;
      case Replaced(_, newQty, retained) =>
        WriteReportHeader(buf, 14, m, U64(newQty) + ([BoolByte(retained)] + []));
        WriteField(buf, 33, U64(newQty), [BoolByte(retained)] + [], full);
        WriteField(buf, 41, [BoolByte(retained)], [], full);
        len := 42;
    }
  }

  method EncodeSummary(m: Stamped, buf: array<Byte>)
    requires buf.Length >= MAX_MESSAGE_LEN && m.event.SnapshotSummary?
    modifies buf
    ensures buf[..68] == EventBytes(m)
    ensures forall i :: 68 <= i < buf.Length ==> buf[i] == old(buf[i])
  {
    hide U64, Plain, TouchBytes;
    ghost var full := EventBytes(m);
    var e := m.event;
    var last: nat := if e.lastTrade.Some? then e.lastTrade.value else 0;
    ghost var r4 := U64(e.accountCount) + [];
    ghost var r3 := U64(e.levelCount) + r4;
    ghost var r2 := U64(last) + r3;
    ghost var r1 := [BoolByte(e.lastTrade.Some?)] + r2;
    WriteHeader(buf, 19, m.seqNo, TouchBytes(e.bestBid, TouchBytes(e.bestAsk, r1)));
    WriteTouch(buf, 9, e.bestBid, TouchBytes(e.bestAsk, r1), full);
    WriteTouch(buf, 26, e.bestAsk, r1, full);
    WriteField(buf, 43, [BoolByte(e.lastTrade.Some?)], r2, full);
    WriteField(buf, 44, U64(last), r3, full);
    WriteField(buf, 52, U64(e.levelCount), r4, full);
    WriteField(buf, 60, U64(e.accountCount), [], full);
  }

  method EncodePublic(m: Stamped, buf: array<Byte>) returns (len: nat)
    requires buf.Length >= MAX_MESSAGE_LEN && !IsReport(m.event)
    modifies buf
    ensures len <= buf.Length && buf[..len] == EventBytes(m)
    ensures forall i :: len <= i < buf.Length ==> buf[i] == old(buf[i])
  {
    hide U64, U128, Plain, TouchBytes;
    ghost var full := EventBytes(m);
    match m.event {
      case Trade(price, qty, side) =>
        WriteHeader(buf, 15, m.seqNo, U64(price) + (U64(qty) + ([SideByte(side)] + [])));
        WriteField(buf, 9, U64(price), U64(qty) + ([SideByte(side)] + []), full);
        WriteField(buf, 17, U64(qty), [SideByte(side)] + [], full);
        WriteField(buf, 25, [SideByte(side)], [], full);
        len := 26;
      case BookUpdate(bid, ask) =>
        WriteHeader(buf, 16, m.seqNo, TouchBytes(bid, TouchBytes(ask, [])));
        WriteTouch(buf, 9, bid, TouchBytes(ask, []), full);
        WriteTouch(buf, 26, ask, [], full);
        len := 43;
      case SnapshotLevel(side, price, qty, count) =>
        WriteHeader(buf, 17, m.seqNo, [SideByte(side)] + (U64(price) + (U64(qty) + (U64(count) + []))));
        WriteField(buf, 9, [SideByte(side)], U64(price) + (U64(qty) + (U64(count) + [])), full);
        WriteField(buf, 10, U64(price), U64(qty) + (U64(count) + []), full);
        WriteField(buf, 18, U64(qty), U64(count) + [], full);
        WriteField(buf, 26, U64(count), [], full);
        len := 34;
      case SnapshotAccount(a, open, notional) =>
        WriteHeader(buf, 18, m.seqNo, U64(a) + (U64(open) + (U128(notional) + [])));
        WriteField(buf, 9, U64(a), U64(open) + (U128(notional) + []), full);
        WriteField(buf, 17, U64(open), U128(notional) + [], full);
        WriteField(buf, 25, U128(notional), [], full);
        len := 41;
      case SnapshotSummary(_, _, _, _, _) =>
        EncodeSummary(m, buf);
        len := 68;
    }
  }

  /** Write one stamped event into a caller-owned buffer. */
  method EncodeEvent(m: Stamped, buf: array<Byte>) returns (len: nat)
    requires buf.Length >= MAX_MESSAGE_LEN && (IsReport(m.event) ==> m.engineSeq.Some?)
    modifies buf
    ensures len <= buf.Length && buf[..len] == EventBytes(m)
    ensures forall i :: len <= i < buf.Length ==> buf[i] == old(buf[i])
  {
    hide EventBytes;
    if IsReport(m.event) {
      len := EncodeReport(m, buf);
    } else {
      len := EncodePublic(m, buf);
    }
  }

  // ---- Decoding ----

  function TouchAt(f: seq<Byte>, at: nat): Option<Touch>
    requires at + 17 <= |f|
  {
    var present := BoolOfByte(f[at]);
    if present.None? then None
    else if present.value then Some(Some((ReadU64(f, at + 1), ReadU64(f, at + 9))))
    else Some(None)
  }

  function KeyAt(f: seq<Byte>): OrderKey
    requires |f| >= 33
  {
    OrderKey(ReadU64(f, 17), ReadU64(f, 25))
  }

  function Ok(f: seq<Byte>, engineSeq: Option<nat>, event: Event): Decoded<Stamped>
    requires |f| >= 9
  {
    Decoded(Stamped(ReadU64(f, 1), engineSeq, event))
  }

  function DecodeReport(f: seq<Byte>): Decoded<Stamped>
    requires WellFramed(f) && 10 <= f[0] <= 14
  {
    var es, k := Some(ReadU64(f, 9)), KeyAt(f);
    if f[0] == 10 then Ok(f, es, Accepted(k, ReadU64(f, 33)))
    else if f[0] == 11 then
      if ReasonOfByte(f[33]).None? then Malformed(MalformedMessage) else Ok(f, es, Rejected(k, ReasonOfByte(f[33]).value))
    else if f[0] == 12 then
      if SideOfByte(f[33]).None? || StateOfByte(f[58]).None? then Malformed(MalformedMessage)
      else Ok(f, es, Filled(k, SideOfByte(f[33]).value, ReadU64(f, 34), ReadU64(f, 42), ReadU64(f, 50), StateOfByte(f[58]).value))
    else if f[0] == 13 then Ok(f, es, Cancelled(k))
    else if BoolOfByte(f[41]).None? then Malformed(MalformedMessage)
    else Ok(f, es, Replaced(k, ReadU64(f, 33), BoolOfByte(f[41]).value))
  }

  function DecodePublic(f: seq<Byte>): Decoded<Stamped>
    requires WellFramed(f) && 15 <= f[0] <= 19
  {
    if f[0] == 15 then
      if SideOfByte(f[25]).None? then Malformed(MalformedMessage)
      else Ok(f, None, Trade(ReadU64(f, 9), ReadU64(f, 17), SideOfByte(f[25]).value))
    else if f[0] == 16 then
      if TouchAt(f, 9).None? || TouchAt(f, 26).None? then Malformed(MalformedMessage)
      else Ok(f, None, BookUpdate(TouchAt(f, 9).value, TouchAt(f, 26).value))
    else if f[0] == 17 then
      if SideOfByte(f[9]).None? then Malformed(MalformedMessage)
      else Ok(f, None, SnapshotLevel(SideOfByte(f[9]).value, ReadU64(f, 10), ReadU64(f, 18), ReadU64(f, 26)))
    else if f[0] == 18 then Ok(f, None, SnapshotAccount(ReadU64(f, 9), ReadU64(f, 17), ReadU128(f, 25)))
    else if TouchAt(f, 9).None? || TouchAt(f, 26).None? || BoolOfByte(f[43]).None? then Malformed(MalformedMessage)
    else
      Ok(f, None, SnapshotSummary(TouchAt(f, 9).value, TouchAt(f, 26).value,
                                  if BoolOfByte(f[43]).value then Some(ReadU64(f, 44)) else None,
                                  ReadU64(f, 52), ReadU64(f, 60)))
  }

  function DecodeEvent(f: seq<Byte>): Decoded<Stamped> {
    if f == [] then Malformed(MalformedMessage)
    else if MessageLen(f[0]).None? then Malformed(UnknownMessageType)
    else if |f| != MessageLen(f[0]).value then Malformed(MalformedMessage)
    else if f[0] < 10 then Panics
    else if f[0] <= 14 then DecodeReport(f)
    else DecodePublic(f)
  }

  // ---- Encode, then decode ----

  lemma ReportHeader(f: seq<Byte>, tag: Byte, m: Stamped, tail: seq<Byte>)
    requires m.engineSeq.Some? && IsReport(m.event) && f == Report(tag, m, tail) && Fits(m)
    ensures |f| == 33 + |tail| && f[0] == tag && f[33..] == tail
    ensures ReadU64(f, 1) == m.seqNo && ReadU64(f, 9) == m.engineSeq.value && KeyAt(f) == m.event.key
  {
    hide ReadU64, U64;
    var r3 := U64(m.event.key.order) + tail;
    var r2 := U64(m.event.key.account) + r3;
    var r1 := U64(m.engineSeq.value) + r2;
    var r0 := U64(m.seqNo) + r1;
    assert f[0..] == [tag] + r0;
    Peel(f, 0, [tag], r0);
    PeelU64(f, 1, m.seqNo, r1);
    PeelU64(f, 9, m.engineSeq.value, r2);
    PeelU64(f, 17, m.event.key.account, r3);
    PeelU64(f, 25, m.event.key.order, tail);
  }

  lemma PlainHeader(f: seq<Byte>, tag: Byte, seqNo: nat, tail: seq<Byte>)
    requires f == Plain(tag, seqNo, tail) && IsU64(seqNo)
    ensures |f| == 9 + |tail| && f[0] == tag && f[9..] == tail && ReadU64(f, 1) == seqNo
  {
    hide ReadU64, U64;
    assert f[0..] == [tag] + (U64(seqNo) + tail);
    Peel(f, 0, [tag], U64(seqNo) + tail);
    PeelU64(f, 1, seqNo, tail);
  }

  lemma PeelTouch(f: seq<Byte>, at: nat, t: Touch, tail: seq<Byte>)
    requires at <= |f| && f[at..] == TouchBytes(t, tail) && TouchFits(t)
    ensures at + 17 <= |f| && TouchAt(f, at) == Some(t) && f[at + 17..] == tail
  {
    hide ReadU64, U64;
    var p := if t.Some? then t.value.0 else 0;
    var q := if t.Some? then t.value.1 else 0;
    Peel(f, at, [BoolByte(t.Some?)], U64(p) + (U64(q) + tail));
    PeelU64(f, at + 1, p, U64(q) + tail);
    PeelU64(f, at + 9, q, tail);
  }

  lemma DecodeEncodedReport(m: Stamped)
    requires Fits(m) && IsReport(m.event)
    ensures DecodeEvent(EventBytes(m)) == Decoded(m)
  {
    hide ReadU64, U64, Report, KeyAt;
    var f := EventBytes(m);
    match m.event {
      case Accepted(_, resting) =>
        ReportHeader(f, 10, m, U64(resting) + []);
        PeelU64(f, 33, resting, []);
      case Rejected(_, reason) =>
        ReportHeader(f, 11, m, [ReasonByte(reason)] + []);
        Peel(f, 33, [ReasonByte(reason)], []);
      case Filled(_, side, price, qty, resting, state) => DecodeEncodedFilled(m);
      case Cancelled(_) => ReportHeader(f, 13, m, []);
      case Replaced(_, newQty, retained) =>
        ReportHeader(f, 14, m, U64(newQty) + ([BoolByte(retained)] + []));
        PeelU64(f, 33, newQty, [BoolByte(retained)] + []);
        Peel(f, 41, [BoolByte(retained)], []);
    }
  }

  lemma DecodeEncodedFilled(m: Stamped)
    requires Fits(m) && m.event.Filled?
    ensures DecodeEvent(EventBytes(m)) == Decoded(m)
  {
    hide ReadU64, U64, Report, KeyAt;
    var f, e := EventBytes(m), m.event;
    var r4 := [StateByte(e.state)] + [];
    var r3 := U64(e.restingQty) + r4;
    var r2 := U64(e.qty) + r3;
    var r1 := U64(e.price) + r2;
    ReportHeader(f, 12, m, [SideByte(e.side)] + r1);
    Peel(f, 33, [SideByte(e.side)], r1);
    PeelU64(f, 34, e.price, r2);
    PeelU64(f, 42, e.qty, r3);
    PeelU64(f, 50, e.restingQty, r4);
    Peel(f, 58, [StateByte(e.state)], []);
  }

  lemma DecodeEncodedSummary(m: Stamped)
    requires Fits(m) && m.event.SnapshotSummary?
    ensures DecodeEvent(EventBytes(m)) == Decoded(m)
  {
    hide ReadU64, U64, Plain, TouchBytes, TouchAt;
    var f, e := EventBytes(m), m.event;
    var last := if e.lastTrade.Some? then e.lastTrade.value else 0;
    var r4 := U64(e.accountCount) + [];
    var r3 := U64(e.levelCount) + r4;
    var r2 := U64(last) + r3;
    var r1 := [BoolByte(e.lastTrade.Some?)] + r2;
    PlainHeader(f, 19, m.seqNo, TouchBytes(e.bestBid, TouchBytes(e.bestAsk, r1)));
    PeelTouch(f, 9, e.bestBid, TouchBytes(e.bestAsk, r1));
    PeelTouch(f, 26, e.bestAsk, r1);
    Peel(f, 43, [BoolByte(e.lastTrade.Some?)], r2);
    PeelU64(f, 44, last, r3);
    PeelU64(f, 52, e.levelCount, r4);
    PeelU64(f, 60, e.accountCount, []);
  }

  lemma DecodeEncodedPublic(m: Stamped)
    requires Fits(m) && !IsReport(m.event)
    ensures DecodeEvent(EventBytes(m)) == Decoded(m)
  {
    hide ReadU64, ReadU128, U64, U128, Plain, TouchBytes, TouchAt;
    var f := EventBytes(m);
    match m.event {
      case Trade(price, qty, side) =>
        PlainHeader(f, 15, m.seqNo, U64(price) + (U64(qty) + ([SideByte(side)] + [])));
        PeelU64(f, 9, price, U64(qty) + ([SideByte(side)] + []));
        PeelU64(f, 17, qty, [SideByte(side)] + []);
        Peel(f, 25, [SideByte(side)], []);
      case BookUpdate(bid, ask) =>
        PlainHeader(f, 16, m.seqNo, TouchBytes(bid, TouchBytes(ask, [])));
        PeelTouch(f, 9, bid, TouchBytes(ask, []));
        PeelTouch(f, 26, ask, []);
      case SnapshotLevel(side, price, qty, count) =>
        PlainHeader(f, 17, m.seqNo, [SideByte(side)] + (U64(price) + (U64(qty) + (U64(count) + []))));
        Peel(f, 9, [SideByte(side)], U64(price) + (U64(qty) + (U64(count) + [])));
        PeelU64(f, 10, price, U64(qty) + (U64(count) + []));
        PeelU64(f, 18, qty, U64(count) + []);
        PeelU64(f, 26, count, []);
      case SnapshotAccount(a, open, notional) =>
        PlainHeader(f, 18, m.seqNo, U64(a) + (U64(open) + (U128(notional) + [])));
        PeelU64(f, 9, a, U64(open) + (U128(notional) + []));
        PeelU64(f, 17, open, U128(notional) + []);
        Peel(f, 25, U128(notional), []);
        U128Read(f, 25, notional);
      case SnapshotSummary(_, _, _, _, _) => DecodeEncodedSummary(m);
    }
  }

  /** Every stamped event that fits its fields survives encoding and decoding. */
  lemma DecodeEncodedEvent(m: Stamped)
    requires Fits(m)
    ensures DecodeEvent(EventBytes(m)) == Decoded(m)
  {
    if IsReport(m.event) {
      DecodeEncodedReport(m);
    } else {
      DecodeEncodedPublic(m);
    }
  }

  // ---- Decode, then encode ----

  /** The 16 payload bytes behind an absent flag are zero. */
  predicate AbsentIsZero(f: seq<Byte>, at: nat, width: nat)
    requires at + 1 + width <= |f|
  {
    f[at] == 0 ==> forall i :: at + 1 <= i < at + 1 + width ==> f[i] == 0
  }

  /** A frame whose absent fields are zero-filled; frames without optional fields always are. */
  predicate Canonical(f: seq<Byte>)
    requires WellFramed(f)
  {
    && (f[0] == 16 || f[0] == 19 ==> AbsentIsZero(f, 9, 16) && AbsentIsZero(f, 26, 16))
    && (f[0] == 19 ==> AbsentIsZero(f, 43, 8))
  }

  lemma {:induction false} ZeroBytes(width: nat)
    ensures forall i :: 0 <= i < width ==> ToLE(width, 0)[i] == 0
  {
    if width > 0 {
      ZeroBytes(width - 1);
    }
  }

  /** Zero-filled exactly when the eight bytes are the encoding of zero. */
  lemma ZeroWord(f: seq<Byte>, at: nat)
    requires at + 8 <= |f|
    ensures f[at..at + 8] == U64(0) <==> forall i :: at <= i < at + 8 ==> f[i] == 0
  {
    ZeroBytes(8);
    assert forall i :: at <= i < at + 8 ==> f[i] == f[at..at + 8][i - at];
    if forall i :: at <= i < at + 8 ==> f[i] == 0 {
      assert f[at..at + 8] == U64(0);
    }
  }

  /** Two fields in front of a remainder are determined by the whole. */
  lemma SplitEqual(a: seq<Byte>, b: seq<Byte>, x: seq<Byte>, y: seq<Byte>)
    requires |a| == |b|
    ensures a + x == b + y <==> a == b && x == y
  {
    if a + x == b + y {
      assert a == (a + x)[..|a|] && b == (b + y)[..|a|];
      assert x == (a + x)[|a|..] && y == (b + y)[|a|..];
    }
  }

  /** Re-encoding one optional side gives its bytes back if and only if an absent side is zero-filled. */
  lemma TouchCanonical(f: seq<Byte>, at: nat, tail: seq<Byte>)
    requires at + 17 <= |f| && TouchAt(f, at).Some?
    ensures TouchBytes(TouchAt(f, at).value, tail) == f[at..] <==> AbsentIsZero(f, at, 16) && tail == f[at + 17..]
  {
    hide ReadU64, U64;
    var t := TouchAt(f, at).value;
    var p := U64(if t.Some? then t.value.0 else 0);
    var q := U64(if t.Some? then t.value.1 else 0);
    Cut(f, at, 1);
    Cut(f, at + 1, 8);
    Cut(f, at + 9, 8);
    SplitEqual([BoolByte(t.Some?)], f[at..at + 1], p + (q + tail), f[at + 1..]);
    SplitEqual(p, f[at + 1..at + 9], q + tail, f[at + 9..]);
    SplitEqual(q, f[at + 9..at + 17], tail, f[at + 17..]);
    ZeroWord(f, at + 1);
    ZeroWord(f, at + 9);
  }

  lemma ReencodeReportHeader(f: seq<Byte>, m: Stamped)
    requires |f| >= 33 && IsReport(m.event) && m.event.key == KeyAt(f)
    requires m.seqNo == ReadU64(f, 1) && m.engineSeq == Some(ReadU64(f, 9))
    ensures Report(f[0], m, f[33..]) == f
  {
    hide ReadU64, U64;
    assert f[0..] == f;
    Cut(f, 0, 1);
    Cut(f, 1, 8);
    Cut(f, 9, 8);
    Cut(f, 17, 8);
    Cut(f, 25, 8);
  }

  lemma ReencodeReport(f: seq<Byte>)
    requires WellFramed(f) && 10 <= f[0] <= 14 && DecodeReport(f).Decoded?
    ensures EventBytes(DecodeReport(f).value) == f
  {
    hide ReadU64, U64, Report, KeyAt;
    ReencodeReportHeader(f, DecodeReport(f).value);
    if f[0] == 10 {
      Cut(f, 33, 8);
      assert f[41..] == [];
    } else if f[0] == 11 {
      Cut(f, 33, 1);
      assert f[34..] == [];
    } else if f[0] == 12 {
      Cut(f, 33, 1);
      Cut(f, 34, 8);
      Cut(f, 42, 8);
      Cut(f, 50, 8);
      Cut(f, 58, 1);
      assert f[59..] == [];
    } else if f[0] == 13 {
      assert f[33..] == [];
    } else {
      Cut(f, 33, 8);
      Cut(f, 41, 1);
      assert f[42..] == [];
    }
  }

  lemma ReencodeHeader(f: seq<Byte>, tail: seq<Byte>)
    requires |f| >= 9
    ensures Plain(f[0], ReadU64(f, 1), tail) == f <==> tail == f[9..]
  {
    hide ReadU64, U64;
    assert f[0..] == f;
    Cut(f, 0, 1);
    Cut(f, 1, 8);
    SplitEqual([f[0]], f[0..1], U64(ReadU64(f, 1)) + tail, f[1..]);
    SplitEqual(U64(ReadU64(f, 1)), f[1..9], tail, f[9..]);
  }

  lemma ReencodeSummary(f: seq<Byte>)
    requires WellFramed(f) && f[0] == 19 && DecodePublic(f).Decoded?
    ensures EventBytes(DecodePublic(f).value) == f <==> Canonical(f)
  {
    hide ReadU64, U64, Plain, TouchBytes, TouchAt, AbsentIsZero;
    var e := DecodePublic(f).value.event;
    var last := U64(if e.lastTrade.Some? then e.lastTrade.value else 0);
    var r2 := U64(e.levelCount) + (U64(e.accountCount) + []);
    var r1 := [BoolByte(e.lastTrade.Some?)] + (last + r2);
    ReencodeHeader(f, TouchBytes(e.bestBid, TouchBytes(e.bestAsk, r1)));
    TouchCanonical(f, 9, TouchBytes(e.bestAsk, r1));
    TouchCanonical(f, 26, r1);
    Cut(f, 43, 1);
    Cut(f, 44, 8);
    Cut(f, 52, 8);
    Cut(f, 60, 8);
    assert f[68..] == [];
    SplitEqual([BoolByte(e.lastTrade.Some?)], f[43..44], last + r2, f[44..]);
    SplitEqual(last, f[44..52], r2, f[52..]);
    ZeroWord(f, 44);
    LastCanonical(f, last, e.lastTrade.Some?);
  }

  lemma LastCanonical(f: seq<Byte>, last: seq<Byte>, present: bool)
    requires |f| == 68 && BoolByte(present) == f[43] && (present ==> last == f[44..52]) && (!present ==> last == U64(0))
    requires f[44..52] == U64(0) <==> forall i :: 44 <= i < 52 ==> f[i] == 0
    ensures last == f[44..52] <==> AbsentIsZero(f, 43, 8)
  {
  }

  lemma ReencodeUpdate(f: seq<Byte>)
    requires WellFramed(f) && f[0] == 16 && DecodePublic(f).Decoded?
    ensures EventBytes(DecodePublic(f).value) == f <==> Canonical(f)
  {
    hide ReadU64, U64, Plain, TouchBytes, TouchAt, AbsentIsZero;
    var e := DecodePublic(f).value.event;
    assert f[43..] == [];
    ReencodeHeader(f, TouchBytes(e.bestBid, TouchBytes(e.bestAsk, [])));
    TouchCanonical(f, 9, TouchBytes(e.bestAsk, []));
    TouchCanonical(f, 26, []);
  }

  lemma ReencodeFixed(f: seq<Byte>)
    requires WellFramed(f) && (f[0] == 15 || f[0] == 17 || f[0] == 18) && DecodePublic(f).Decoded?
    ensures EventBytes(DecodePublic(f).value) == f
  {
    hide ReadU64, ReadU128, U64, U128, Plain;
    ReencodeHeader(f, f[9..]);
    if f[0] == 15 {
      Cut(f, 9, 8);
      Cut(f, 17, 8);
      Cut(f, 25, 1);
      assert f[26..] == [];
    } else if f[0] == 17 {
      Cut(f, 9, 1);
      Cut(f, 10, 8);
      Cut(f, 18, 8);
      Cut(f, 26, 8);
      assert f[34..] == [];
    } else {
      Cut(f, 9, 8);
      Cut(f, 17, 8);
      Cut(f, 25, 16);
      assert f[41..] == [];
    }
  }

  /**
   * Decoding ignores the payload of an absent side, so two frames can mean the same event. A decodable frame
   * is the encoding of what it decodes to if and only if its absent fields are zero-filled.
   */
  lemma EncodeDecodedEventIff(f: seq<Byte>)
    requires DecodeEvent(f).Decoded?
    ensures EventBytes(DecodeEvent(f).value) == f <==> Canonical(f)
  {
    hide EventBytes, DecodeReport, DecodePublic, AbsentIsZero;
    if f[0] <= 14 {
      ReencodeReport(f);
    } else if f[0] == 16 {
      ReencodeUpdate(f);
    } else if f[0] == 19 {
      ReencodeSummary(f);
    } else {
      ReencodeFixed(f);
    }
  }

  /** A decoded event fits its fields. */
  lemma DecodedFits(f: seq<Byte>)
    requires DecodeEvent(f).Decoded?
    ensures Fits(DecodeEvent(f).value)
  {
    hide ReadU64, ReadU128;
  }

  /** Decoding as an event fails outright on exactly the well-framed inbound messages. */
  lemma EventPanicsIff(f: seq<Byte>)
    ensures DecodeEvent(f).Panics? <==> WellFramed(f) && f[0] < 10
  {
  }
}
