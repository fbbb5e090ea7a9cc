/** The routing table in full: over every run its keys are the resting orders and the strays, nothing else. */
module Strays {
  import opened Types
  import opened Queues
  import opened BookViews
  import opened Matching
  import opened Risk
  import opened Runs
  import opened Shadows
  import opened Routing

  /**
   * A key goes astray when its acceptance rests nothing although its last fill left something. It is a stray until
   * the next event about it that touches the table.
   */
  function Astray(strays: set<OrderKey>, m: Shadow, e: Event): set<OrderKey> {
    match e
    case Accepted(k, resting) => if resting > 0 then strays - {k} else if k in m then strays + {k} else strays
    case Filled(k, _, _, _, _, _) => strays - {k}
    case Cancelled(k) => strays - {k}
    case Replaced(k, newQty, _) => if newQty > 0 then strays - {k} else strays + {k}
    case _ => strays
  }

  function AstrayAll(strays: set<OrderKey>, m: Shadow, events: seq<Event>): set<OrderKey>
    decreases |events|
  {
    if events == [] then strays else AstrayAll(Astray(strays, m, events[0]), Note(m, events[0]), events[1..])
  }

  /** The strays of a run, from its events alone. */
  function StraysAfter(config: RiskConfig, s: System, m: Shadow, strays: set<OrderKey>, cs: seq<Command>): set<OrderKey>
    decreases |cs|
  {
    if cs == [] then strays
    else
      var p := Process(config, s, cs[0]);
      StraysAfter(config, p.system, Rebuild(m, p.events), AstrayAll(strays, m, p.events), cs[1..])
  }

  /** The table's keys are the picture's and the strays, and no key is both. */
  ghost predicate Divides(table: Table, m: Shadow, strays: set<OrderKey>) {
    table.Keys == m.Keys + strays && m.Keys !! strays
  }

  lemma RouteDivides(table: Table, m: Shadow, strays: set<OrderKey>, self: Option<OrderKey>, conn: ConnId, e: Event)
    requires Divides(table, m, strays)
    ensures Divides(Route(table, self, conn, e).table, Note(m, e), Astray(strays, m, e))
  {
  }

  lemma {:induction false} RouteAllDivides(table: Table, m: Shadow, strays: set<OrderKey>, self: Option<OrderKey>, conn: ConnId, events: seq<Event>)
    requires Divides(table, m, strays)
    ensures Divides(RouteAll(table, self, conn, events).table, Rebuild(m, events), AstrayAll(strays, m, events))
    decreases |events|
  {
    hide Divides, Route, Note, Astray;
    if events != [] {
      RouteDivides(table, m, strays, self, conn, events[0]);
      RouteAllDivides(Route(table, self, conn, events[0]).table, Note(m, events[0]), Astray(strays, m, events[0]),
                     self, conn, events[1..]);
    }
  }

  lemma {:induction false} RunDivides(config: RiskConfig, g: Gateway, m: Shadow, strays: set<OrderKey>, rs: seq<Request>)
    returns (m': Shadow)
    requires Wf(g.system.book) && AllValid(rs) && Mirrors(m, g.system.book) && Divides(g.table, m, strays)
    ensures var g' := ServeAll(config, g, rs);
            && Wf(g'.system.book) && Mirrors(m', g'.system.book)
            && Divides(g'.table, m', StraysAfter(config, g.system, m, strays, Commands(rs)))
    decreases |rs|
  {
    hide Wf, Mirrors, Divides, Process, RouteAll, Rebuild, AstrayAll;
    if rs != [] {
      var c, p := rs[0].command, Process(config, g.system, rs[0].command);
      ProcessWf(config, g.system, c);
      ProcessMirrors(config, m, g.system, c);
      RouteAllDivides(g.table, m, strays, SelfId(c), rs[0].conn, p.events);
      m' := RunDivides(config, Serve(config, g, rs[0]), Rebuild(m, p.events), AstrayAll(strays, m, p.events), rs[1..]);
      assert Commands(rs)[1..] == Commands(rs[1..]) && Commands(rs)[0] == c;
    } else {
      m' := m;
    }
  }

  lemma MirrorsRests(m: Shadow, b: BookView, k: OrderKey)
    requires Wf(b) && Mirrors(m, b)
    ensures k in m <==> Rests(b, k)
  {
    hide Rostered, Sorted, Unique, Disjoint, Uncrossed;
    assert Look(m, k) == RestingQty(b, k);
    NotRestingQty(b, k);
  }

  /**
   * For every run: an entry is in the table if and only if its order rests or is a stray, and no stray rests. Which
   * keys are strays follows from the event stream alone.
   */
  lemma TableIsRestingAndStrays(config: RiskConfig, rs: seq<Request>)
    requires AllValid(rs)
    ensures var g, strays := ServeAll(config, IDLE, rs), StraysAfter(config, START, map[], {}, Commands(rs));
            && (forall k :: k in g.table <==> Rests(g.system.book, k) || k in strays)
            && (forall k :: k in strays ==> !Rests(g.system.book, k))
  {
    EmptyWf();
    assert Mirrors(map[], START.book) && Divides(IDLE.table, map[], {});
    hide Wf, Mirrors, Rests, ServeAll, StraysAfter;
    var m := RunDivides(config, IDLE, map[], {}, rs);
    var g, strays := ServeAll(config, IDLE, rs), StraysAfter(config, START, map[], {}, Commands(rs));
    forall k
      ensures k in m <==> Rests(g.system.book, k)
    {
      MirrorsRests(m, g.system.book, k);
    }
  }
}
