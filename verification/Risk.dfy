/** The gate in front of the engine: kill switch, per-account limits, price band, and the engine sequence. */
module Risk {
  import opened Types
  import opened BookViews
  import opened Matching
  import opened Arenas
  import opened BookStore
  import opened OrderBooks
  import opened Engines

  datatype RiskLimits = RiskLimits(maxOpenOrders: nat, maxNotional: nat, priceBandPct: nat)

  /** The cap is a 128-bit value; a band wider than 100 percent would make the lower edge negative. */
  type RiskConfig = c: RiskLimits | c.maxNotional < W128 && c.priceBandPct <= 100 witness RiskLimits(50, 100_000_000, 10)

  const DEFAULT_CONFIG: RiskConfig := RiskLimits(50, 100_000_000, 10)

  /** The drain policy: no new orders, no amend that raises quantity or reprices. */
  function KillSwitchCheck(c: Command, b: BookView): Option<Event> {
    match c
    case NewOrder(k, _, _, _, _, _, _) => Some(Rejected(k, KillSwitchActive))
    case CancelReplace(k, newPrice, newQty) =>
      if Rests(b, k) && (newPrice != OrderOf(b, k).price || newQty > OrderOf(b, k).qty)
      then Some(Rejected(k, KillSwitchActive)) else None
    case _ => None
  }

  /** Last trade, else the best price on the side a market order would sweep. */
  function MarketReference(side: Side, b: BookView): Option<Price> {
    if b.lastTrade.Some? then b.lastTrade
    else
      var q := Queue(b, Opposite(side));
      if q == [] then None else Some(q[0].price)
  }

  /** The mid of two prices, added in 64 bits: a sum past U64_MAX wraps around. */
  function Mid(bid: Price, ask: Price): Price {
    (bid + ask) % 0x1_0000_0000_0000_0000 / 2
  }

  /** Last trade, else the mid when both sides have depth, else no reference. */
  function BandReference(b: BookView): Option<Price> {
    if b.lastTrade.Some? then b.lastTrade
    else if b.bids != [] && b.asks != [] then Some(Mid(b.bids[0].price, b.asks[0].price))
    else None
  }

  /** An account's notional and an order's, added in 128 bits: a sum past that wraps around. */
  function GateSum(held: nat, incoming: nat): nat {
    (held + incoming) % W128
  }

  predicate InBand(config: RiskConfig, reference: Price, p: Price) {
    reference * (100 - config.priceBandPct) / 100 <= p <= reference * (100 + config.priceBandPct) / 100
  }

  function NewOrderCheck(config: RiskConfig, c: Command, b: BookView): Option<Event>
    requires c.NewOrder?
  {
    var a := c.key.account;
    var reference := if c.kind.Limit? then Some(c.price) else MarketReference(c.side, b);
    if CanRest(c.kind, c.tif) && |OpenOrders(b, a)| >= config.maxOpenOrders then Some(Rejected(c.key, MaxOpenOrders))
    else if reference.None? then Some(Rejected(c.key, NotFullyFillable))
    else if GateSum(AccountNotional(b, a), reference.value * c.qty) > config.maxNotional then Some(Rejected(c.key, MaxNotional))
    else if c.kind.Limit? && BandReference(b).Some? && !InBand(config, BandReference(b).value, c.price)
    then Some(Rejected(c.key, PriceBandViolation))
    else None
  }

  function PreApplyCheck(config: RiskConfig, killed: bool, c: Command, b: BookView): Option<Event> {
    if c.KillSwitch? then None
    else if killed && KillSwitchCheck(c, b).Some? then KillSwitchCheck(c, b)
    else if c.NewOrder? then NewOrderCheck(config, c, b)
    else None
  }

  /** Everything a run carries from one command to the next. */
  datatype System = System(book: BookView, killed: bool, seqNo: nat)

  const START: System := System(EMPTY, false, 0)

  datatype Step = Step(system: System, events: seq<Event>)

  /** One command through the gate: the sequence advances whether or not it is let through. */
  function Process(config: RiskConfig, s: System, c: Command): Step {
    var killed := if c.KillSwitch? then c.engaged else s.killed;
    var reject := PreApplyCheck(config, s.killed, c, s.book);
    if reject.Some? then Step(System(s.book, killed, s.seqNo + 1), [reject.value])
    else
      var r := Apply(s.book, c);
      Step(System(r.book, killed, s.seqNo + 1), r.events)
  }

  lemma SnapshotAdmitted(config: RiskConfig, killed: bool, c: Command, b: BookView)
    ensures c.Snapshot? ==> PreApplyCheck(config, killed, c, b).None?
  {
  }

  class RiskState {
    const config: RiskConfig
    var killSwitchEngaged: bool

    constructor (config: RiskConfig)
      ensures this.config == config && !killSwitchEngaged
    {
      this.config := config;
      killSwitchEngaged := false;
    }

    method KillSwitchReject(c: Command, book: Book) returns (reject: Option<Event>)
      requires book.Valid()
      ensures reject == KillSwitchCheck(c, book.view)
    {
      hide Wf, Stores, FreeListExact;
      match c {
        case NewOrder(k, _, _, _, _, _, _) => reject := Some(Rejected(k, KillSwitchActive));
        case CancelReplace(k, newPrice, newQty) =>
          var resting := book.RestingOrderSnapshot(k);
          if resting.Some? && (newPrice != resting.value.0 || newQty > resting.value.1) {
            reject := Some(Rejected(k, KillSwitchActive));
          } else {
            reject := None;
          }
        case _ => reject := None;
      }
    }

    method NewOrderReject(c: Command, book: Book) returns (reject: Option<Event>)
      requires book.Valid() && c.NewOrder?
      ensures reject == NewOrderCheck(config, c, book.view)
    {
      hide Wf, Stores, FreeListExact, AccountNotional, OpenOrders, GateSum;
      var a := c.key.account;
      if CanRest(c.kind, c.tif) && book.AccountOpenOrderCount(a) >= config.maxOpenOrders {
        return Some(Rejected(c.key, MaxOpenOrders));
      }
      var effective: Option<Price> := Some(c.price);
      if c.kind.Market? {
        effective := if book.lastTrade.Some? then book.lastTrade else book.Best(Opposite(c.side));
        if effective.None? {
          return Some(Rejected(c.key, NotFullyFillable));
        }
      }
      if GateSum(book.GrossNotional(a), effective.value * c.qty) > config.maxNotional {
        return Some(Rejected(c.key, MaxNotional));
      }
      if c.kind.Limit? {
        var reference := book.lastTrade;
        if reference.None? && book.Best(Buy).Some? && book.Best(Sell).Some? {
          reference := Some(Mid(book.Best(Buy).value, book.Best(Sell).value));
        }
        if reference.Some? && !InBand(config, reference.value, c.price) {
          return Some(Rejected(c.key, PriceBandViolation));
        }
      }
      return None;
    }

    /** The gate: a kill-switch command updates the state here and is never rejected. */
    method PreApply(c: Command, book: Book) returns (reject: Option<Event>)
      requires book.Valid()
      modifies this
      ensures reject == PreApplyCheck(config, old(killSwitchEngaged), c, book.view)
      ensures killSwitchEngaged == if c.KillSwitch? then c.engaged else old(killSwitchEngaged)
    {
      hide Wf, Stores, FreeListExact, KillSwitchCheck, NewOrderCheck;
      if c.KillSwitch? {
        killSwitchEngaged := c.engaged;
        return None;
      }
      if killSwitchEngaged {
        reject := KillSwitchReject(c, book);
        if reject.Some? {
          return reject;
        }
      }
      if c.NewOrder? {
        reject := NewOrderReject(c, book);
        return reject;
      }
      return None;
    }
  }

  /**
   * Risk first, and only if risk permits, the engine. Every event of the call carries the returned sequence.
   * `intact` is false where the source panics.
   */
  method ProcessCommand(engine: Engine, risk: RiskState, c: Command, seqNo: nat)
    returns (intact: bool, seqNo': nat, events: seq<Event>)
    requires engine.Valid() && WellFormed(c) && (TakesSlot(c) ==> engine.book.arena.HasRoom())
    modifies engine.book, engine.book.arena, risk
    ensures engine.Valid() && |engine.book.arena.slots| <= |old(engine.book.arena.slots)| + 1
    ensures intact <==> !Stalls(old(engine.book.view), c)
    ensures var p := Process(risk.config, System(old(engine.book.view), old(risk.killSwitchEngaged), seqNo), c);
            && System(engine.book.view, risk.killSwitchEngaged, seqNo') == p.system
            && events == if intact then p.events else StallRows(old(engine.book.view))
  {
    hide Wf, Stores, FreeListExact, PreApplyCheck, Matching.Apply, PricesPositive, StallRows;
    SnapshotAdmitted(risk.config, risk.killSwitchEngaged, c, engine.book.view);
    seqNo' := seqNo + 1;
    var reject := risk.PreApply(c, engine.book);
    if reject.Some? {
      return true, seqNo', [reject.value];
    }
    intact, events := engine.Apply(c);
  }
}
