/** The matching thread: record, process, route each event, one request at a time for the life of the process. */
module MatchingThreads {
  import opened Types
  import opened Queues
  import opened BookViews
  import opened Matching
  import opened Arenas
  import opened BookStore
  import opened OrderBooks
  import opened Engines
  import opened Risk
  import opened Runs
  import opened Shadows
  import opened Routing
  import opened Codec
  import opened Inbound
  import opened Framing
  import opened LiveStream

  /** One message on the return channel. */
  datatype Return = Return(conn: ConnId, stamp: Stamp)

  /** What has been sent on the return channel and on the market-data channel. */
  datatype Traffic = Traffic(returned: seq<Return>, published: seq<Event>)

  function Returns(seqNo: nat, out: seq<Delivery>): (r: seq<Return>)
    ensures |r| == |out| && forall i :: 0 <= i < |out| ==> r[i] == Return(out[i].conn, Stamp(seqNo, out[i].event))
  {
    seq(|out|, i requires 0 <= i < |out| => Return(out[i].conn, Stamp(seqNo, out[i].event)))
  }

  /** What one request sends. */
  function Sends(config: RiskConfig, g: Gateway, r: Request): Traffic {
    var p := Process(config, g.system, r.command);
    var h := RouteAll(g.table, SelfId(r.command), r.conn, p.events);
    Traffic(Returns(p.system.seqNo, h.out), Published(StampAll(p.system.seqNo, p.events)))
  }

  function Plus(t: Traffic, u: Traffic): Traffic {
    Traffic(t.returned + u.returned, t.published + u.published)
  }

  function SendsAll(config: RiskConfig, g: Gateway, rs: seq<Request>): Traffic
    decreases |rs|
  {
    if rs == [] then Traffic([], [])
    else Plus(Sends(config, g, rs[0]), SendsAll(config, Serve(config, g, rs[0]), rs[1..]))
  }

  class MatchingThread {
    const engine: Engine
    const risk: RiskState
    var restingConn: Table
    var engineSeq: nat
    var recorder: Option<seq<Byte>>
    var sent: Traffic
    ghost var owners: Table

    ghost predicate Valid()
      reads this, engine, engine.book, engine.book.arena
    {
      engine.Valid()
    }

    ghost function State(): Gateway
      reads this, engine, engine.book, risk
    {
      Gateway(System(engine.book.view, risk.killSwitchEngaged, engineSeq), restingConn, owners)
    }

    constructor (config: RiskConfig, recording: bool)
      ensures Valid() && risk.config == config && fresh(risk) && fresh(engine.book) && fresh(engine.book.arena)
      ensures State() == IDLE && engine.book.arena.slots == []
      ensures sent == Traffic([], []) && recorder == if recording then Some([]) else None
    {
      hide Wf, Stores, FreeListExact;
      engine := new Engine();
      risk := new RiskState(config);
      restingConn, owners, engineSeq := map[], map[], 0;
      sent := Traffic([], []);
      recorder := if recording then Some([]) else None;
    }

    /** The emit callback: market data goes to subscribers, everything else to the connection the table names. */
    method RouteEvent(self: Option<OrderKey>, conn: ConnId, e: Event)
      modifies this`restingConn, this`sent
      ensures var h := Route(old(restingConn), self, conn, e);
              restingConn == h.table
              && sent == Plus(old(sent), Traffic(Returns(engineSeq, h.out), if IsMarketData(e) then [e] else []))
    {
      if e.Trade? || e.BookUpdate? {
        sent := Traffic(sent.returned, sent.published + [e]);
        return;
      }
      if e.SnapshotLevel? || e.SnapshotAccount? || e.SnapshotSummary? {
        sent := Traffic(sent.returned + [Return(conn, Stamp(engineSeq, e))], sent.published);
        return;
      }
      var id := EventId(e).value;
      var route := if Some(id) == self || id !in restingConn then conn else restingConn[id];
      match e {
        case Accepted(_, resting) =>
          if resting > 0 {
            restingConn := restingConn[id := route];
          }
        case Filled(_, _, _, _, resting, _) =>
          if resting > 0 {
            restingConn := restingConn[id := route];
          } else {
            restingConn := restingConn - {id};
          }
        case Cancelled(_) => restingConn := restingConn - {id};
        case Replaced(_, _, _) => restingConn := restingConn[id := route];
        case _ =>
      }
      sent := Traffic(sent.returned + [Return(route, Stamp(engineSeq, e))], sent.published);
    }

    method RouteEvents(self: Option<OrderKey>, conn: ConnId, events: seq<Event>)
      modifies this`restingConn, this`sent
      ensures var h := RouteAll(old(restingConn), self, conn, events);
              restingConn == h.table
              && sent == Plus(old(sent), Traffic(Returns(engineSeq, h.out), Published(StampAll(engineSeq, events))))
    {
      hide Route, RouteAll, Published, Plus;
      ghost var table, before := restingConn, sent;
      RoutedStart(table, self, conn, engineSeq, before);
      for i := 0 to |events|
        invariant Routed(table, self, conn, engineSeq, events[..i], before, restingConn, sent)
      {
        RoutedStep(table, self, conn, engineSeq, events[..i], before, restingConn, sent, events[i]);
        RouteEvent(self, conn, events[i]);
        assert events[..i + 1] == events[..i] + [events[i]];
      }
      assert events[..|events|] == events;
    }

    /** One request. Where the source panics, the rows already emitted are out, and the thread is dead. */
    method Handle(r: Request) returns (served: bool)
      requires Valid() && WellFormed(r.command) && (TakesSlot(r.command) ==> engine.book.arena.HasRoom())
      modifies this, engine.book, engine.book.arena, risk
      ensures Valid()
      ensures served <==> !Stalls(old(engine.book.view), r.command)
      ensures State() == if served then Serve(risk.config, old(State()), r) else Dead(old(State()))
      ensures sent == Plus(old(sent), if served then Sends(risk.config, old(State()), r) else LastWords(old(State()), r))
      ensures recorder == if old(recorder).Some? then Some(old(recorder).value + CommandBytes(r.command)) else None
    {
      hide Wf, Stores, FreeListExact, Process, RouteAll, Published, CommandBytes, Plus, PricesPositive, StallRows;
      ghost var g := State();
      SnapshotOnlyReads(risk.config, g.system, r.command);
      if recorder.Some? {
        var buf := new Byte[MAX_MESSAGE_LEN](_ => 0);
        var len := EncodeCommand(r.command, buf);
        recorder := Some(recorder.value + buf[..len]);
      }
      var intact, seqNo, events := ProcessCommand(engine, risk, r.command, engineSeq);
      engineSeq := seqNo;
      RouteEvents(SelfId(r.command), r.conn, events);
      if !intact {
        LastWordsRoute(g, r);
        return false;
      }
      owners := OwnersAfter(owners, r.conn, r.command, events);
      return true;
    }

    /**
     * The thread's whole life: it serves every request, or dies at the first that stalls. What it ends with and has
     * sent is the run of the requests it served, then the rows it died on; the recording also holds that request.
     * The life may be of any length, as long as fewer orders rest at once than there are slot numbers.
     */
    method Run(requests: seq<Request>) returns (served: nat)
      requires Valid() && AllValid(requests) && Roomy(risk.config, State().system, Commands(requests))
      modifies this, engine.book, engine.book.arena, risk
      ensures Valid() && served <= |requests|
      ensures served == |requests| <==> !Stalled(risk.config, old(State()).system, Commands(requests))
      ensures var g := ServeAll(risk.config, old(State()), requests[..served]);
              var all := Plus(old(sent), SendsAll(risk.config, old(State()), requests[..served]));
              if served == |requests| then State() == g && sent == all
              else Stalls(g.system.book, requests[served].command)
                   && State() == Dead(g) && sent == Plus(all, LastWords(g, requests[served]))
      ensures recorder == if old(recorder).Some?
                          then Some(old(recorder).value + Recording(Commands(requests[..Min(served + 1, |requests|)]))) else None
    {
      hide Wf, Stores, FreeListExact, Serve, Sends, ServeAll, SendsAll, Plus, Recording, Stalls, Stalled, Alive, CommandBytes;
      hide LastWords, Roomy;
      ghost var config, g, before, tape := risk.config, State(), sent, recorder;
      served := 0;
      AliveStart(config, g, before, tape, requests);
      while served < |requests|
        invariant Valid() && risk.config == config && served <= |requests|
        invariant Alive(config, g, before, tape, requests, served, State(), sent, recorder)
        decreases |requests| - served
      {
        AliveStep(config, g, before, tape, requests, served, State(), sent, recorder);
        AliveSoFar(config, g, before, tape, requests, served, State(), sent, recorder);
        engine.book.RoomIff();
        var ok := Handle(requests[served]);
        if !ok {
          return;
        }
        served := served + 1;
      }
      AliveDone(config, g, before, tape, requests, State(), sent, recorder);
    }
  }

  /** A thread that stopped: the sequence number was taken, nothing else moved. */
  function Dead(g: Gateway): Gateway {
    g.(system := g.system.(seqNo := g.system.seqNo + 1))
  }

  /** The rows a stalling snapshot sends to whoever asked for it. */
  ghost function LastWords(g: Gateway, r: Request): Traffic {
    var rows := StallRows(g.system.book);
    Traffic(seq(|rows|, i requires 0 <= i < |rows| => Return(r.conn, Stamp(g.system.seqNo + 1, rows[i]))), [])
  }

  // ---- Loop invariants ----

  ghost predicate Routed(table: Table, self: Option<OrderKey>, conn: ConnId, seqNo: nat, events: seq<Event>,
                         before: Traffic, now: Table, sent: Traffic)
  {
    var h := RouteAll(table, self, conn, events);
    now == h.table && sent == Plus(before, Traffic(Returns(seqNo, h.out), Published(StampAll(seqNo, events))))
  }

  lemma RoutedStart(table: Table, self: Option<OrderKey>, conn: ConnId, seqNo: nat, before: Traffic)
    ensures Routed(table, self, conn, seqNo, [], before, table, before)
  {
    assert StampAll(seqNo, []) == [] && Returns(seqNo, []) == [];
    assert before.returned + [] == before.returned && before.published + [] == before.published;
  }

  lemma PlusAssoc(t: Traffic, u: Traffic, v: Traffic)
    ensures Plus(Plus(t, u), v) == Plus(t, Plus(u, v))
  {
    assert (t.returned + u.returned) + v.returned == t.returned + (u.returned + v.returned);
    assert (t.published + u.published) + v.published == t.published + (u.published + v.published);
  }

  lemma ReturnsConcat(seqNo: nat, xs: seq<Delivery>, ys: seq<Delivery>)
    ensures Returns(seqNo, xs + ys) == Returns(seqNo, xs) + Returns(seqNo, ys)
  {
  }

  lemma RoutedStep(table: Table, self: Option<OrderKey>, conn: ConnId, seqNo: nat, events: seq<Event>,
                   before: Traffic, now: Table, sent: Traffic, e: Event)
    requires Routed(table, self, conn, seqNo, events, before, now, sent)
    ensures var h := Route(now, self, conn, e);
            Routed(table, self, conn, seqNo, events + [e], before, h.table,
                   Plus(sent, Traffic(Returns(seqNo, h.out), if IsMarketData(e) then [e] else [])))
  {
    hide Route, RouteAll, Published, Reports, IsMarketData;
    var h, g := Route(now, self, conn, e), RouteAll(table, self, conn, events);
    RouteConcat(table, self, conn, events, [e]);
    RouteOne(now, self, conn, e);
    ReturnsConcat(seqNo, g.out, h.out);
    assert StampAll(seqNo, events + [e]) == StampAll(seqNo, events) + [Stamp(seqNo, e)];
    ReportsConcat(StampAll(seqNo, events), [Stamp(seqNo, e)]);
    PublishedConcat(StampAll(seqNo, events), [Stamp(seqNo, e)]);
    StreamsOne(Stamp(seqNo, e));
    PlusAssoc(before, Traffic(Returns(seqNo, g.out), Published(StampAll(seqNo, events))),
              Traffic(Returns(seqNo, h.out), if IsMarketData(e) then [e] else []));
  }

  lemma SnapshotOnlyReads(config: RiskConfig, s: System, c: Command)
    ensures c.Snapshot? ==> Process(config, s, c).system == s.(seqNo := s.seqNo + 1)
  {
    hide SnapshotEvents, TopOfBook;
  }

  lemma {:induction false} RowsRoute(table: Table, conn: ConnId, seqNo: nat, rows: seq<Event>)
    requires forall i :: 0 <= i < |rows| ==> rows[i].SnapshotLevel?
    ensures var h := RouteAll(table, None, conn, rows);
            && h.table == table
            && Returns(seqNo, h.out) == seq(|rows|, i requires 0 <= i < |rows| => Return(conn, Stamp(seqNo, rows[i])))
            && Published(StampAll(seqNo, rows)) == []
    decreases |rows|
  {
    if rows == [] {
      assert StampAll(seqNo, rows) == [];
    } else {
      RowsRoute(table, conn, seqNo, rows[1..]);
      var h := Route(table, None, conn, rows[0]);
      ReturnsConcat(seqNo, h.out, RouteAll(table, None, conn, rows[1..]).out);
      assert StampAll(seqNo, rows)[1..] == StampAll(seqNo, rows[1..]);
    }
  }

  lemma StallRowsAreLevels(b: BookView)
    ensures forall i :: 0 <= i < |StallRows(b)| ==> StallRows(b)[i].SnapshotLevel?
  {
    hide AscendingPrices, Sum, PositiveQueue;
    LevelEventsSilent(Buy, b.bids, AscendingPrices(Buy, b.bids));
  }

  lemma LastWordsRoute(g: Gateway, r: Request)
    requires r.command.Snapshot?
    ensures var h := RouteAll(g.table, SelfId(r.command), r.conn, StallRows(g.system.book));
            && h.table == g.table
            && Traffic(Returns(g.system.seqNo + 1, h.out), Published(StampAll(g.system.seqNo + 1, StallRows(g.system.book))))
               == LastWords(g, r)
  {
    hide StallRows, RouteAll, Published;
    StallRowsAreLevels(g.system.book);
    RowsRoute(g.table, r.conn, g.system.seqNo + 1, StallRows(g.system.book));
  }

  /** After `n` requests: the state, the traffic and the recording are those of the first `n`, and none stalled. */
  ghost predicate Alive(config: RiskConfig, g: Gateway, before: Traffic, tape: Option<seq<Byte>>, rs: seq<Request>,
                         n: nat, now: Gateway, sent: Traffic, recorder: Option<seq<Byte>>)
  {
    && n <= |rs|
    && now == ServeAll(config, g, rs[..n])
    && sent == Plus(before, SendsAll(config, g, rs[..n]))
    && recorder == (if tape.Some? then Some(tape.value + Recording(Commands(rs[..n]))) else None)
    && (Stalled(config, g.system, Commands(rs)) <==> Stalled(config, now.system, Commands(rs[n..])))
    && Roomy(config, now.system, Commands(rs[n..]))
  }

  lemma {:induction false} ServeSnoc(config: RiskConfig, g: Gateway, rs: seq<Request>, r: Request)
    ensures ServeAll(config, g, rs + [r]) == Serve(config, ServeAll(config, g, rs), r)
    ensures SendsAll(config, g, rs + [r]) == Plus(SendsAll(config, g, rs), Sends(config, ServeAll(config, g, rs), r))
    decreases |rs|
  {
    hide Serve, Sends, Plus;
    if rs == [] {
      assert rs + [r] == [r] && [r][1..] == [];
      PlusNothing(Sends(config, g, r));
    } else {
      assert (rs + [r])[1..] == rs[1..] + [r] && (rs + [r])[0] == rs[0];
      var g' := Serve(config, g, rs[0]);
      ServeSnoc(config, g', rs[1..], r);
      PlusAssoc(Sends(config, g, rs[0]), SendsAll(config, g', rs[1..]), Sends(config, ServeAll(config, g', rs[1..]), r));
    }
  }

  lemma PlusNothing(t: Traffic)
    ensures Plus(t, Traffic([], [])) == t && Plus(Traffic([], []), t) == t
  {
    assert t.returned + [] == t.returned && t.published + [] == t.published;
    assert [] + t.returned == t.returned && [] + t.published == t.published;
  }

  lemma {:induction false} RecordingSnoc(cs: seq<Command>, c: Command)
    ensures Recording(cs + [c]) == Recording(cs) + CommandBytes(c)
    decreases |cs|
  {
    hide CommandBytes;
    if cs == [] {
      assert cs + [c] == [c] && [c][1..] == [];
      assert CommandBytes(c) + [] == CommandBytes(c);
    } else {
      assert (cs + [c])[1..] == cs[1..] + [c] && (cs + [c])[0] == cs[0];
      RecordingSnoc(cs[1..], c);
      Assoc(CommandBytes(cs[0]), Recording(cs[1..]), CommandBytes(c));
    }
  }

  lemma AliveStart(config: RiskConfig, g: Gateway, before: Traffic, tape: Option<seq<Byte>>, rs: seq<Request>)
    requires Roomy(config, g.system, Commands(rs))
    ensures Alive(config, g, before, tape, rs, 0, g, before, tape)
  {
    assert rs[..0] == [] && rs[0..] == rs && Commands([]) == [];
    PlusNothing(before);
    if tape.Some? {
      assert tape.value + [] == tape.value;
    }
  }

  lemma RecordingStep(tape: seq<Byte>, rs: seq<Request>, n: nat)
    requires n < |rs|
    ensures tape + Recording(Commands(rs[..n + 1])) == (tape + Recording(Commands(rs[..n]))) + CommandBytes(rs[n].command)
  {
    hide CommandBytes;
    assert Commands(rs[..n + 1]) == Commands(rs[..n]) + [rs[n].command];
    RecordingSnoc(Commands(rs[..n]), rs[n].command);
    Assoc(tape, Recording(Commands(rs[..n])), CommandBytes(rs[n].command));
  }

  /** One more request: served if it does not stall, recorded in any case. */
  lemma AliveStep(config: RiskConfig, g: Gateway, before: Traffic, tape: Option<seq<Byte>>, rs: seq<Request>,
                   n: nat, now: Gateway, sent: Traffic, recorder: Option<seq<Byte>>)
    requires Alive(config, g, before, tape, rs, n, now, sent, recorder) && n < |rs|
    ensures var recorder' := if recorder.Some? then Some(recorder.value + CommandBytes(rs[n].command)) else None;
            && (recorder' == if tape.Some? then Some(tape.value + Recording(Commands(rs[..n + 1]))) else None)
            && (!Stalls(now.system.book, rs[n].command) ==>
                  Alive(config, g, before, tape, rs, n + 1, Serve(config, now, rs[n]), Plus(sent, Sends(config, now, rs[n])), recorder'))
            && (Stalls(now.system.book, rs[n].command) ==> Stalled(config, g.system, Commands(rs)))
  {
    hide Sends, Plus, CommandBytes, Recording, Process, Stalls, ServeAll, SendsAll, RouteAll;
    assert rs[..n + 1] == rs[..n] + [rs[n]];
    ServeSnoc(config, g, rs[..n], rs[n]);
    PlusAssoc(before, SendsAll(config, g, rs[..n]), Sends(config, now, rs[n]));
    if tape.Some? {
      RecordingStep(tape.value, rs, n);
    }
    assert Commands(rs[n..])[0] == rs[n].command && Commands(rs[n..])[1..] == Commands(rs[n + 1..]);
  }

  lemma AliveSoFar(config: RiskConfig, g: Gateway, before: Traffic, tape: Option<seq<Byte>>, rs: seq<Request>,
                   n: nat, now: Gateway, sent: Traffic, recorder: Option<seq<Byte>>)
    requires Alive(config, g, before, tape, rs, n, now, sent, recorder)
    ensures n <= |rs| && now == ServeAll(config, g, rs[..n]) && sent == Plus(before, SendsAll(config, g, rs[..n]))
    ensures n < |rs| ==> HasSlot(now.system.book, rs[n].command)
  {
    assert n < |rs| ==> Commands(rs[n..]) != [];
  }

  lemma AliveDone(config: RiskConfig, g: Gateway, before: Traffic, tape: Option<seq<Byte>>, rs: seq<Request>,
                   now: Gateway, sent: Traffic, recorder: Option<seq<Byte>>)
    requires Alive(config, g, before, tape, rs, |rs|, now, sent, recorder)
    ensures now == ServeAll(config, g, rs[..|rs|]) && sent == Plus(before, SendsAll(config, g, rs[..|rs|]))
    ensures recorder == if tape.Some? then Some(tape.value + Recording(Commands(rs[..|rs|]))) else None
    ensures !Stalled(config, g.system, Commands(rs))
  {
    hide ServeAll, SendsAll, Plus, Recording;
    assert Commands(rs[|rs|..]) == [];
  }

  // ---- Nothing is lost or invented on the way to the channels ----

  function Stamps(rs: seq<Return>): (xs: seq<Stamp>)
    ensures |xs| == |rs| && forall i :: 0 <= i < |rs| ==> xs[i] == rs[i].stamp
  {
    seq(|rs|, i requires 0 <= i < |rs| => rs[i].stamp)
  }

  lemma {:induction false} RoutedReports(table: Table, self: Option<OrderKey>, conn: ConnId, seqNo: nat, events: seq<Event>)
    ensures Stamps(Returns(seqNo, RouteAll(table, self, conn, events).out)) == Reports(StampAll(seqNo, events))
    decreases |events|
  {
    hide UpdateTable;
    if events != [] {
      var h := Route(table, self, conn, events[0]);
      RoutedReports(h.table, self, conn, seqNo, events[1..]);
      ReturnsConcat(seqNo, h.out, RouteAll(h.table, self, conn, events[1..]).out);
      assert StampAll(seqNo, events)[1..] == StampAll(seqNo, events[1..]);
    }
  }

  /**
   * Over every run, the return channel carries exactly the run's execution reports and snapshot rows, in order and
   * under their command's engine sequence, and the market-data channel exactly its trades and touch changes.
   */
  lemma {:induction false} TrafficIsLive(config: RiskConfig, g: Gateway, rs: seq<Request>)
    ensures var t := SendsAll(config, g, rs);
            var xs := Emitted(config, g.system, Commands(rs));
            Stamps(t.returned) == Reports(xs) && t.published == Published(xs)
    ensures ServeAll(config, g, rs).system == Run(config, g.system, Commands(rs)).system
    decreases |rs|
  {
    hide Process, Reports, Published, RouteAll;
    if rs == [] {
      StreamsNone();
    } else {
      var p := Process(config, g.system, rs[0].command);
      TrafficIsLive(config, Serve(config, g, rs[0]), rs[1..]);
      assert Commands(rs)[1..] == Commands(rs[1..]);
      ReportsConcat(StampAll(p.system.seqNo, p.events), Emitted(config, p.system, Commands(rs[1..])));
      PublishedConcat(StampAll(p.system.seqNo, p.events), Emitted(config, p.system, Commands(rs[1..])));
      RoutedReports(g.table, SelfId(rs[0].command), rs[0].conn, p.system.seqNo, p.events);
      StampsConcat(Sends(config, g, rs[0]).returned, SendsAll(config, Serve(config, g, rs[0]), rs[1..]).returned);
    }
  }

  lemma StampsConcat(xs: seq<Return>, ys: seq<Return>)
    ensures Stamps(xs + ys) == Stamps(xs) + Stamps(ys)
  {
  }

  lemma StreamsNone()
    ensures Reports([]) == [] && Published([]) == []
  {
  }
}
