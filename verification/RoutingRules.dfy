/** Who is told what: the recipient of every report, over every run. */
module RoutingRules {
  import opened Types
  import opened Queues
  import opened BookViews
  import opened Matching
  import opened Risk
  import opened Runs
  import opened Shadows
  import opened Routing
  import opened MatchingThreads
  import opened Rules

  /** The reports of a command that go to connections: all but prints and touch announcements. */
  function Addressed(events: seq<Event>): seq<Event>
    decreases |events|
  {
    if events == [] then []
    else if events[0].Trade? || events[0].BookUpdate? then Addressed(events[1..])
    else [events[0]] + Addressed(events[1..])
  }

  function EventsOf(out: seq<Delivery>): (es: seq<Event>)
    ensures |es| == |out| && forall i :: 0 <= i < |out| ==> es[i] == out[i].event
  {
    seq(|out|, i requires 0 <= i < |out| => out[i].event)
  }

  lemma RouteTells(table: Table, self: Option<OrderKey>, conn: ConnId, e: Event)
    ensures EventsOf(Route(table, self, conn, e).out) == if e.Trade? || e.BookUpdate? then [] else [e]
  {
    hide UpdateTable;
  }

  lemma {:induction false} AllAddressed(table: Table, self: Option<OrderKey>, conn: ConnId, events: seq<Event>)
    ensures EventsOf(RouteAll(table, self, conn, events).out) == Addressed(events)
    decreases |events|
  {
    hide Route;
    if events != [] {
      RouteTells(table, self, conn, events[0]);
      var h := Route(table, self, conn, events[0]);
      AllAddressed(h.table, self, conn, events[1..]);
      var rest := RouteAll(h.table, self, conn, events[1..]).out;
      assert EventsOf(h.out + rest) == EventsOf(h.out) + EventsOf(rest);
    }
  }

  predicate HasKeyOf(e: Event) {
    e.Accepted? || e.Rejected? || e.Filled? || e.Cancelled? || e.Replaced?
  }

  /** The command is about this order. */
  predicate Names(c: Command, k: OrderKey) {
    (c.NewOrder? || c.CancelOrder? || c.CancelReplace?) && c.key == k
  }

  /** A submission or amend of `k` that went through. */
  ghost predicate Takes(config: RiskConfig, s: System, c: Command, k: OrderKey) {
    && (c.NewOrder? || c.CancelReplace?) && c.key == k
    && var es := Process(config, s, c).events;
       exists i :: 0 <= i < |es| && (es[i].Accepted? || es[i].Replaced?) && es[i].key == k
  }

  /** The connection of the latest request that submitted or amended an order successfully. */
  ghost function LastOwner(config: RiskConfig, rs: seq<Request>, k: OrderKey): Option<ConnId>
    decreases |rs|
  {
    if rs == [] then None
    else
      var before, r := rs[..|rs| - 1], rs[|rs| - 1];
      if Takes(config, Run(config, START, Commands(before)).system, r.command, k) then Some(r.conn)
      else LastOwner(config, before, k)
  }

  lemma CancelTakesNone(config: RiskConfig, s: System, k: OrderKey)
    requires Wf(s.book)
    ensures var es := Process(config, s, CancelOrder(k)).events;
            forall i :: 0 <= i < |es| ==> !es[i].Accepted? && !es[i].Replaced?
  {
    hide Wf, Process, Lacks, Rests;
    CancelRule(config, s, k);
    var es := Process(config, s, CancelOrder(k)).events;
    assert forall i :: 0 <= i < |es| - 1 ==> es[i] == es[..|es| - 1][i];
  }

  lemma ClaimsIsTakes(config: RiskConfig, s: System, c: Command, k: OrderKey)
    requires Wf(s.book)
    ensures Claims(c, Process(config, s, c).events) && SelfId(c) == Some(k) <==> Takes(config, s, c, k)
  {
    hide Wf, Process;
    if c.CancelOrder? {
      CancelTakesNone(config, s, c.key);
    }
  }

  lemma {:induction false} OwnersAreLast(config: RiskConfig, rs: seq<Request>, k: OrderKey)
    requires AllValid(rs)
    ensures var g := ServeAll(config, IDLE, rs); if k in g.owners then LastOwner(config, rs, k) == Some(g.owners[k]) else LastOwner(config, rs, k).None?
    decreases |rs|
  {
    hide Process, RouteAll, Claims, Takes, Wf, SelfId, Run;
    if rs != [] {
      var before, r := rs[..|rs| - 1], rs[|rs| - 1];
      var g := ServeAll(config, IDLE, before);
      assert rs == before + [r];
      OwnersAreLast(config, before, k);
      ServeSnoc(config, IDLE, before, r);
      TrafficIsLive(config, IDLE, before);
      EmptyWf();
      CommandsWellFormed(before);
      RunWf(config, START, Commands(before));
      ClaimsIsTakes(config, g.system, r.command, k);
      ClaimsSelf(r.command, Process(config, g.system, r.command).events);
    }
  }

  lemma ClaimsSelf(c: Command, events: seq<Event>)
    ensures Claims(c, events) ==> SelfId(c).Some?
  {
  }

  lemma CommandsWellFormed(rs: seq<Request>)
    requires AllValid(rs)
    ensures AllWellFormed(Commands(rs))
  {
  }

  /**
   * Over every run, whatever request comes next: each of its reports is delivered, in order; a report about the order
   * the request names, and every snapshot row, goes to the requester; a report about any other order goes to the
   * connection that last submitted or amended that order successfully.
   */
  lemma RoutingRule(config: RiskConfig, rs: seq<Request>, next: Request)
    requires AllValid(rs) && WellFormed(next.command)
    ensures var g := ServeAll(config, IDLE, rs);
            var es := Process(config, g.system, next.command).events;
            var out := RouteAll(g.table, SelfId(next.command), next.conn, es).out;
            && EventsOf(out) == Addressed(es)
            && forall i :: 0 <= i < |out| ==>
                 if HasKeyOf(out[i].event) && !Names(next.command, out[i].event.key)
                 then LastOwner(config, rs, out[i].event.key) == Some(out[i].conn)
                 else out[i].conn == next.conn
  {
    hide Process, RouteAll, ServeAll, LastOwner;
    var g := ServeAll(config, IDLE, rs);
    var es := Process(config, g.system, next.command).events;
    var out := RouteAll(g.table, SelfId(next.command), next.conn, es).out;
    AllAddressed(g.table, SelfId(next.command), next.conn, es);
    RoutingNeverMisses(config, rs, next);
    forall i | 0 <= i < |out|
      ensures if HasKeyOf(out[i].event) && !Names(next.command, out[i].event.key)
              then LastOwner(config, rs, out[i].event.key) == Some(out[i].conn)
              else out[i].conn == next.conn
    {
      if HasKeyOf(out[i].event) {
        OwnersAreLast(config, rs, out[i].event.key);
      }
    }
  }
}
