/** Replay: frame and decode a recording, then run it through the same gate and engine as live traffic. */
module Replays {
  import opened Types
  import opened BookViews
  import opened Matching
  import opened Arenas
  import opened BookStore
  import opened OrderBooks
  import opened Engines
  import opened Risk
  import opened Runs
  import opened Routing
  import opened Codec
  import opened Inbound
  import opened Framing
  import opened Readers
  import opened LiveStream
  import opened MatchingThreads

  datatype Numbered<T> = Numbered(streamSeq: nat, value: T)

  /** One stream's own counter, from 1. */
  function Number<T>(xs: seq<T>): (r: seq<Numbered<T>>)
    ensures |r| == |xs| && forall i :: 0 <= i < |xs| ==> r[i] == Numbered(i + 1, xs[i])
  {
    seq(|xs|, i requires 0 <= i < |xs| => Numbered(i + 1, xs[i]))
  }

  datatype Replayed =
    | Output(reports: seq<Numbered<Stamp>>, marketData: seq<Numbered<Event>>, lastTrade: Option<Price>)
    | UnrecognizedTag
    | MalformedCommand(reason: RejectReason)
    | Crashed

  function Commanded(items: seq<Item>): seq<Command> {
    if items == [] then []
    else (if items[0].Forward? then [items[0].command] else []) + Commanded(items[1..])
  }

  function FirstRefusal(items: seq<Item>): Option<RejectReason> {
    if items == [] then None
    else if items[0].Refuse? then Some(items[0].reason)
    else FirstRefusal(items[1..])
  }

  /** What replaying a recording must produce: the live stream of its commands, split and numbered, or their fate. */
  ghost function Expected(config: RiskConfig, cs: seq<Command>): Replayed {
    var xs := Emitted(config, START, cs);
    if Stalled(config, START, cs) then Crashed
    else Output(Number(Reports(xs)), Number(Published(xs)), Run(config, START, cs).system.book.lastTrade)
  }

  ghost function Replay(config: RiskConfig, bytes: seq<Byte>): Replayed {
    var f := Frames(bytes);
    var t := TakeIn(f.frames);
    if t.panicked then Crashed
    else if f.stuck then UnrecognizedTag
    else if FirstRefusal(t.items).Some? then MalformedCommand(FirstRefusal(t.items).value)
    else Expected(config, Commanded(t.items))
  }

  // ---- The replay loops ----

  /** Collect the commands and remember the first refusal. */
  method Gather(items: seq<Item>) returns (commands: seq<Command>, refusal: Option<RejectReason>)
    ensures commands == Commanded(items) && refusal == FirstRefusal(items)
  {
    commands, refusal := [], None;
    for i := 0 to |items|
      invariant commands + Commanded(items[i..]) == Commanded(items)
      invariant FirstRefusal(items) == if refusal.Some? then refusal else FirstRefusal(items[i..])
    {
      assert items[i..][1..] == items[i + 1..];
      match items[i] {
        case Forward(c) => commands := commands + [c];
        case Refuse(reason) => refusal := if refusal.None? then Some(reason) else refusal;
      }
    }
    assert items[|items|..] == [];
  }

  /** The two counters and the two output vectors. */
  datatype Tapes = Tapes(reports: seq<Numbered<Stamp>>, marketData: seq<Numbered<Event>>, execSeq: nat, mdSeq: nat)

  /** The tapes hold exactly the given stream, split and numbered. */
  ghost predicate Holds(t: Tapes, xs: seq<Stamp>) {
    && t.reports == Number(Reports(xs)) && t.execSeq == |t.reports|
    && t.marketData == Number(Published(xs)) && t.mdSeq == |t.marketData|
  }

  lemma NumberLast<T>(xs: seq<T>, x: T)
    ensures Number(xs + [x]) == Number(xs) + [Numbered(|xs| + 1, x)]
  {
  }

  lemma HoldsStep(t: Tapes, xs: seq<Stamp>, x: Stamp)
    requires Holds(t, xs)
    ensures IsMarketData(x.event) ==>
              Holds(Tapes(t.reports, t.marketData + [Numbered(t.mdSeq + 1, x.event)], t.execSeq, t.mdSeq + 1), xs + [x])
    ensures !IsMarketData(x.event) ==>
              Holds(Tapes(t.reports + [Numbered(t.execSeq + 1, x)], t.marketData, t.execSeq + 1, t.mdSeq), xs + [x])
  {
    hide Reports, Published, IsMarketData;
    ReportsConcat(xs, [x]);
    PublishedConcat(xs, [x]);
    StreamsOne(x);
    NumberLast(Reports(xs), x);
    NumberLast(Published(xs), x.event);
    assert Reports(xs) + [] == Reports(xs) && Published(xs) + [] == Published(xs);
  }

  /** The emit callback of replay, over one command's events. */
  method Collect(t: Tapes, seqNo: nat, events: seq<Event>, ghost xs: seq<Stamp>) returns (t': Tapes)
    requires Holds(t, xs)
    ensures Holds(t', xs + StampAll(seqNo, events))
  {
    hide Reports, Published, Holds;
    var reports, marketData, execSeq, mdSeq := t.reports, t.marketData, t.execSeq, t.mdSeq;
    assert xs + StampAll(seqNo, events[..0]) == xs;
    for i := 0 to |events|
      invariant Holds(Tapes(reports, marketData, execSeq, mdSeq), xs + StampAll(seqNo, events[..i]))
    {
      var e := events[i];
      HoldsStep(Tapes(reports, marketData, execSeq, mdSeq), xs + StampAll(seqNo, events[..i]), Stamp(seqNo, e));
      assert xs + StampAll(seqNo, events[..i + 1]) == (xs + StampAll(seqNo, events[..i])) + [Stamp(seqNo, e)];
      if e.Trade? || e.BookUpdate? {
        mdSeq := mdSeq + 1;
        marketData := marketData + [Numbered(mdSeq, e)];
      } else {
        execSeq := execSeq + 1;
        reports := reports + [Numbered(execSeq, Stamp(seqNo, e))];
      }
    }
    assert events[..|events|] == events;
    return Tapes(reports, marketData, execSeq, mdSeq);
  }

  /** With `todo` still to replay, the stream so far and the state complete to the whole run. */
  ghost predicate Remaining(config: RiskConfig, cs: seq<Command>, xs: seq<Stamp>, s: System, todo: seq<Command>) {
    && xs + Emitted(config, s, todo) == Emitted(config, START, cs)
    && Run(config, s, todo).system == Run(config, START, cs).system
    && (Stalled(config, s, todo) <==> Stalled(config, START, cs))
    && Roomy(config, s, todo)
  }

  lemma RemainingStep(config: RiskConfig, cs: seq<Command>, xs: seq<Stamp>, s: System, todo: seq<Command>)
    requires Remaining(config, cs, xs, s, todo) && todo != []
    ensures HasSlot(s.book, todo[0])
    ensures var p := Process(config, s, todo[0]);
            if Stalls(s.book, todo[0]) then Expected(config, cs) == Crashed
            else Remaining(config, cs, xs + StampAll(p.system.seqNo, p.events), p.system, todo[1..])
  {
    hide Process, Stalls;
    var p := Process(config, s, todo[0]);
    var own, rest := StampAll(p.system.seqNo, p.events), Emitted(config, p.system, todo[1..]);
    assert (xs + own) + rest == xs + (own + rest);
  }

  lemma RemainingStart(config: RiskConfig, cs: seq<Command>)
    requires Roomy(config, START, cs)
    ensures Remaining(config, cs, [], START, cs[0..]) && Holds(Tapes([], [], 0, 0), [])
  {
    hide Emitted, Run, Stalled, Roomy;
    assert cs[0..] == cs && [] + Emitted(config, START, cs) == Emitted(config, START, cs);
    HoldsNone();
  }

  lemma HoldsNone()
    ensures Holds(Tapes([], [], 0, 0), [])
  {
  }

  lemma RemainingDone(config: RiskConfig, cs: seq<Command>, xs: seq<Stamp>, s: System, t: Tapes)
    requires Remaining(config, cs, xs, s, []) && Holds(t, xs)
    ensures Output(t.reports, t.marketData, s.book.lastTrade) == Expected(config, cs)
  {
    assert xs + [] == xs;
  }

  method ReplayCommands(config: RiskConfig, cs: seq<Command>) returns (r: Replayed)
    requires AllWellFormed(cs) && Roomy(config, START, cs)
    ensures r == Expected(config, cs)
  {
    hide Wf, Stores, FreeListExact, Expected, Process, Remaining, Holds, Stalls, Roomy;
    var engine := new Engine();
    var risk := new RiskState(config);
    var tapes, seqNo := Tapes([], [], 0, 0), 0;
    ghost var xs: seq<Stamp> := [];
    RemainingStart(config, cs);
    for i := 0 to |cs|
      invariant engine.Valid()
      invariant fresh(risk) && fresh(engine.book) && fresh(engine.book.arena)
      invariant Holds(tapes, xs)
      invariant Remaining(config, cs, xs, System(engine.book.view, risk.killSwitchEngaged, seqNo), cs[i..])
    {
      RemainingStep(config, cs, xs, System(engine.book.view, risk.killSwitchEngaged, seqNo), cs[i..]);
      engine.book.RoomIff();
      assert cs[i..][1..] == cs[i + 1..];
      var intact, next, events := ProcessCommand(engine, risk, cs[i], seqNo);
      if !intact {
        return Crashed;
      }
      seqNo := next;
      tapes := Collect(tapes, seqNo, events, xs);
      xs := xs + StampAll(seqNo, events);
    }
    assert cs[|cs|..] == [];
    RemainingDone(config, cs, xs, System(engine.book.view, risk.killSwitchEngaged, seqNo), tapes);
    return Output(tapes.reports, tapes.marketData, engine.book.lastTrade);
  }

  lemma {:induction false} CommandedFromItems(items: seq<Item>)
    requires forall i :: 0 <= i < |items| && items[i].Forward? ==> WireValid(items[i].command)
    ensures AllWellFormed(Commanded(items))
    decreases |items|
  {
    if items != [] {
      CommandedFromItems(items[1..]);
    }
  }

  /** Read a whole recording of any length, then replay it unless it is damaged. */
  method ReplayFile(config: RiskConfig, bytes: seq<Byte>) returns (r: Replayed)
    requires Roomy(config, START, Commanded(TakeIn(Frames(bytes).frames).items))
    ensures r == Replay(config, bytes)
  {
    hide Frames, TakeIn, Expected, Commanded, FirstRefusal, WireValid, Roomy;
    var framer := new Framer();
    framer.Feed(bytes);
    assert framer.buf == bytes;
    var frames, error := framer.DrainFrames();
    var t := DecodeFrames(frames);
    if t.panicked {
      return Crashed;
    }
    if error.Some? {
      return UnrecognizedTag;
    }
    var commands, refusal := Gather(t.items);
    if refusal.Some? {
      return MalformedCommand(refusal.value);
    }
    ForwardsAreValid(frames);
    CommandedFromItems(t.items);
    r := ReplayCommands(config, commands);
  }

  // ---- Replay equals live ----

  lemma {:induction false} ForwardsCommanded(cs: seq<Command>)
    ensures Commanded(Forwards(cs)) == cs && FirstRefusal(Forwards(cs)).None?
    decreases |cs|
  {
    if cs != [] {
      ForwardsCommanded(cs[1..]);
      assert Forwards(cs)[1..] == Forwards(cs[1..]);
    }
  }

  lemma ReplayOfRecording(config: RiskConfig, cs: seq<Command>)
    requires AllWireValid(cs)
    ensures Replay(config, Recording(cs)) == Expected(config, cs)
  {
    hide Frames, TakeIn, Expected, Commanded, FirstRefusal, WireValid, Recording;
    RecordingFrames(cs);
    EncodingsTakenIn(cs);
    ForwardsCommanded(cs);
  }

  /**
   * Replaying what the matching thread recorded gives what it sent: the same reports under the same engine
   * sequences, the same market data, and the same last trade, whatever connections the requests came from. A run
   * that stops the live thread stops the replay too.
   */
  lemma ReplayEqualsLive(config: RiskConfig, rs: seq<Request>)
    requires AllWireValid(Commands(rs))
    ensures var live := SendsAll(config, IDLE, rs);
            var r := Replay(config, Recording(Commands(rs)));
            if Stalled(config, START, Commands(rs)) then r.Crashed?
            else r == Output(Number(Stamps(live.returned)), Number(live.published),
                             ServeAll(config, IDLE, rs).system.book.lastTrade)
  {
    hide Replay, SendsAll, ServeAll, Recording, WireValid;
    ReplayOfRecording(config, Commands(rs));
    TrafficIsLive(config, IDLE, rs);
  }

  /**
   * The documentation says a malformed recording never panics. It does, exactly when a whole frame in it carries an
   * outbound tag, or its commands, all valid, take a snapshot of a zero price; every other damage is reported.
   */
  lemma ReplayCrashesIff(config: RiskConfig, bytes: seq<Byte>)
    ensures var frames := Frames(bytes).frames;
            && AllFramed(frames)
            && (Replay(config, bytes).Crashed? <==>
                  || (exists i :: 0 <= i < |frames| && frames[i][0] >= 10)
                  || (exists cs, tail :: Records(bytes, cs, tail) && Stalled(config, START, cs)))
  {
    hide Frames, TakeIn, Commanded, FirstRefusal, Flatten, Stalled, Records, Expected, WireValid;
    var f := Frames(bytes);
    FramesSplit(bytes);
    TakeInPanicsIff(f.frames);
    ExpectedFate(config, Commanded(TakeIn(f.frames).items));
    if !TakeIn(f.frames).panicked && !f.stuck && FirstRefusal(TakeIn(f.frames).items).None? {
      CleanRecords(bytes);
    }
    forall cs, tail | Records(bytes, cs, tail)
      ensures Replay(config, bytes) == Expected(config, cs)
    {
      ReplayOfCutRecording(config, bytes, cs, tail);
    }
    forall cs
      ensures Expected(config, cs).Crashed? <==> Stalled(config, START, cs)
    {
      ExpectedFate(config, cs);
    }
  }

  lemma ExpectedFate(config: RiskConfig, cs: seq<Command>)
    ensures Expected(config, cs).Output? || Expected(config, cs).Crashed?
    ensures Expected(config, cs).Crashed? <==> Stalled(config, START, cs)
  {
  }

  /** A cancelled-order report, copied into a recording, kills the replay. */
  lemma ReplayCanCrash(config: RiskConfig)
    ensures Replay(config, [13] + ToLE(32, 0)).Crashed?
  {
    hide Expected, Commanded, FirstRefusal, ToLE;
    var bytes: seq<Byte> := [13] + ToLE(32, 0);
    assert bytes[..33] == bytes && bytes[33..] == [];
    CommandPanicsIff(bytes);
    assert Frames(bytes).frames == [bytes] + [];
  }

  /** Frames that all decode are the encodings of what they decode to. */
  lemma {:induction false} CleanFramesAreEncodings(frames: seq<seq<Byte>>)
    requires !TakeIn(frames).panicked && FirstRefusal(TakeIn(frames).items).None?
    ensures var cs := Commanded(TakeIn(frames).items); AllWireValid(cs) && frames == Encodings(cs)
    decreases |frames|
  {
    hide DecodeCommand, WireValid, CommandBytes;
    if frames != [] {
      var t, rest := TakeIn(frames), TakeIn(frames[1..]);
      assert t.items == [ItemOf(DecodeCommand(frames[0]))] + rest.items && t.items[1..] == rest.items;
      assert DecodeCommand(frames[0]).Decoded?;
      EncodeDecoded(frames[0]);
      CleanFramesAreEncodings(frames[1..]);
    }
  }

  /** A recording of valid commands, possibly cut off inside one more frame. */
  ghost predicate Records(bytes: seq<Byte>, cs: seq<Command>, tail: seq<Byte>) {
    AllWireValid(cs) && bytes == Recording(cs) + tail && Incomplete(tail) && !UnknownTag(tail)
  }

  lemma ReplayOfCutRecording(config: RiskConfig, bytes: seq<Byte>, cs: seq<Command>, tail: seq<Byte>)
    requires Records(bytes, cs, tail)
    ensures Replay(config, bytes) == Expected(config, cs)
  {
    hide Frames, TakeIn, Expected, Commanded, FirstRefusal, WireValid, Recording, CommandBytes;
    RecordingFlattens(cs);
    SplitUnique(Framed(Encodings(cs), tail, false), bytes);
    EncodingsTakenIn(cs);
    ForwardsCommanded(cs);
  }

  /** Bytes whose frames all decode, and that end in no unknown tag, record what they decode to. */
  lemma CleanRecords(bytes: seq<Byte>)
    requires var f := Frames(bytes);
             !f.stuck && !TakeIn(f.frames).panicked && FirstRefusal(TakeIn(f.frames).items).None?
    ensures var f := Frames(bytes); Records(bytes, Commanded(TakeIn(f.frames).items), f.pending)
  {
    hide Frames, TakeIn, Commanded, FirstRefusal, WireValid, Records;
    var f := Frames(bytes);
    var cs := Commanded(TakeIn(f.frames).items);
    FramesSplit(bytes);
    CleanFramesAreEncodings(f.frames);
    RecordingFlattens(cs);
    RecordsOf(bytes, cs, f.pending);
  }

  /**
   * A replay succeeds exactly on the recordings of valid commands, whole or cut off inside a last frame, that take
   * no snapshot of a zero price. A cut-off frame is dropped without a word: the result is the replay of the commands
   * before it.
   */
  lemma ReplaySucceedsIff(config: RiskConfig, bytes: seq<Byte>)
    ensures Replay(config, bytes).Output? <==> exists cs, tail :: Records(bytes, cs, tail) && !Stalled(config, START, cs)
    ensures forall cs, tail :: Records(bytes, cs, tail) ==> Replay(config, bytes) == Expected(config, cs)
  {
    hide Frames, TakeIn, Commanded, FirstRefusal, WireValid, Records, Expected, Stalled;
    if Replay(config, bytes).Output? {
      CleanRecords(bytes);
      ExpectedFate(config, Commanded(TakeIn(Frames(bytes).frames).items));
    }
    forall cs, tail | Records(bytes, cs, tail)
      ensures Replay(config, bytes) == Expected(config, cs)
      ensures Expected(config, cs).Output? <==> !Stalled(config, START, cs)
    {
      ReplayOfCutRecording(config, bytes, cs, tail);
      ExpectedFate(config, cs);
    }
  }

  lemma RecordsOf(bytes: seq<Byte>, cs: seq<Command>, tail: seq<Byte>)
    requires AllWireValid(cs) && bytes == Recording(cs) + tail && Incomplete(tail) && !UnknownTag(tail)
    ensures Records(bytes, cs, tail)
  {
  }

  lemma {:induction false} FirstRefusalIs(items: seq<Item>)
    ensures match FirstRefusal(items)
            case None => forall i :: 0 <= i < |items| ==> items[i].Forward?
            case Some(reason) => exists i :: 0 <= i < |items| && items[i] == Refuse(reason) && forall j :: 0 <= j < i ==> items[j].Forward?
    decreases |items|
  {
    if items != [] && items[0].Forward? {
      FirstRefusalIs(items[1..]);
      if FirstRefusal(items).Some? {
        var reason := FirstRefusal(items).value;
        var i :| 0 <= i < |items[1..]| && items[1..][i] == Refuse(reason) && forall j :: 0 <= j < i ==> items[1..][j].Forward?;
        assert items[i + 1] == Refuse(reason);
        forall j | 0 <= j < i + 1
          ensures items[j].Forward?
        {
          assert j > 0 ==> items[1..][j - 1] == items[j];
        }
      }
    }
  }

  /**
   * The errors a replay reports, on recordings without an outbound frame: an unknown tag after the last whole frame
   * comes before everything else; otherwise the reason is that of the first frame that does not decode.
   */
  lemma ReplayErrors(config: RiskConfig, bytes: seq<Byte>)
    requires !TakeIn(Frames(bytes).frames).panicked
    ensures Replay(config, bytes) == UnrecognizedTag <==> UnknownTag(Frames(bytes).pending)
    ensures Replay(config, bytes).MalformedCommand? ==>
              var frames := Frames(bytes).frames;
              exists i :: 0 <= i < |frames| && DecodeCommand(frames[i]) == Malformed(Replay(config, bytes).reason)
                          && forall j :: 0 <= j < i ==> DecodeCommand(frames[j]).Decoded?
  {
    hide Frames, TakeIn, Commanded, FirstRefusal, DecodeCommand, Flatten, UnknownTag, Expected;
    var f := Frames(bytes);
    FramesSplit(bytes);
    ExpectedFate(config, Commanded(TakeIn(f.frames).items));
    if Replay(config, bytes).MalformedCommand? {
      var items := TakeIn(f.frames).items;
      ItemsFollowFrames(f.frames);
      FirstRefusalIs(items);
      var i :| 0 <= i < |items| && items[i] == Refuse(Replay(config, bytes).reason) && forall j :: 0 <= j < i ==> items[j].Forward?;
      forall j | 0 <= j < i
        ensures DecodeCommand(f.frames[j]).Decoded?
      {
        assert items[j] == Forward(items[j].command);
      }
    }
  }
}
