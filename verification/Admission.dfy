/** Which new orders the gate lets in, condition by condition, and what it says to the others. */
module Admission {
  import opened Types
  import opened Queues
  import opened BookViews
  import opened Matching
  import opened Risk

  /** Resting orders of an account, counted in the book. */
  function Held(b: BookView, a: AccountId): nat {
    Sum(b.bids, CountOf(a)) + Sum(b.asks, CountOf(a))
  }

  /** Notional of an account's resting orders, summed over the book. */
  function Exposure(b: BookView, a: AccountId): nat {
    Sum(b.bids, NotionalOf(a)) + Sum(b.asks, NotionalOf(a))
  }

  /** Room under the open-order maximum, asked only of orders that can rest. */
  predicate SlotFree(config: RiskConfig, c: Command, b: BookView)
    requires c.NewOrder?
  {
    c.kind.Limit? && (c.tif.Gtc? || c.tif.PostOnly?) ==> Held(b, c.key.account) < config.maxOpenOrders
  }

  /** A price to value the order at: its own, or for a market order the last trade or the best price it would meet. */
  function Valuation(c: Command, b: BookView): Option<Price>
    requires c.NewOrder?
  {
    if c.kind.Limit? then Some(c.price)
    else if b.lastTrade.Some? then b.lastTrade
    else if c.side.Buy? then (if b.asks == [] then None else Some(b.asks[0].price))
    else (if b.bids == [] then None else Some(b.bids[0].price))
  }

  /** The account's notional and the order's, added in 128 bits, within the cap. */
  predicate Affordable(config: RiskConfig, c: Command, b: BookView, value: Price)
    requires c.NewOrder?
  {
    (Exposure(b, c.key.account) + value * c.qty) % 0x1_0000_0000_0000_0000_0000_0000_0000_0000 <= config.maxNotional
  }

  /** Within the band of the last trade, or of the 64-bit mid of a two-sided book; free where there is neither. */
  predicate Banded(config: RiskConfig, c: Command, b: BookView)
    requires c.NewOrder?
  {
    var anchor :=
      if b.lastTrade.Some? then b.lastTrade
      else if b.bids == [] || b.asks == [] then None
      else Some((b.bids[0].price + b.asks[0].price) % 0x1_0000_0000_0000_0000 / 2);
    c.kind.Limit? && anchor.Some? ==>
      && anchor.value * (100 - config.priceBandPct) / 100 <= c.price
      && c.price <= anchor.value * (100 + config.priceBandPct) / 100
  }

  lemma HeldIs(b: BookView, a: AccountId)
    requires Wf(b)
    ensures |OpenOrders(b, a)| == Held(b, a) && AccountNotional(b, a) == Exposure(b, a)
  {
    hide QueuesWf, Listed, Rests, NoRepeats, Sum;
    WfRosterExact(b, a);
  }

  /**
   * With the switch off, a new order is let in exactly when a slot is free if it could rest, there is a price to value
   * it at, the sum is within the cap, and its limit is in band. The first of these that fails names the reason.
   */
  lemma AdmissionIff(config: RiskConfig, s: System, c: Command)
    requires Wf(s.book) && c.NewOrder? && !s.killed
    ensures PreApplyCheck(config, false, c, s.book) ==
            if !SlotFree(config, c, s.book) then Some(Rejected(c.key, MaxOpenOrders))
            else if Valuation(c, s.book).None? then Some(Rejected(c.key, NotFullyFillable))
            else if !Affordable(config, c, s.book, Valuation(c, s.book).value) then Some(Rejected(c.key, MaxNotional))
            else if !Banded(config, c, s.book) then Some(Rejected(c.key, PriceBandViolation))
            else None
  {
    HeldIs(s.book, c.key.account);
    hide Wf, OpenOrders, AccountNotional, Held, Exposure;
  }

  /** What the step does with the verdict: a refused order gets its reason and leaves everything as it was. */
  lemma RefusedByGate(config: RiskConfig, s: System, c: Command)
    requires Wf(s.book) && c.NewOrder? && !s.killed
    ensures var p := Process(config, s, c);
            if !SlotFree(config, c, s.book) then p == Step(s.(seqNo := s.seqNo + 1), [Rejected(c.key, MaxOpenOrders)])
            else if Valuation(c, s.book).None? then p == Step(s.(seqNo := s.seqNo + 1), [Rejected(c.key, NotFullyFillable)])
            else if !Affordable(config, c, s.book, Valuation(c, s.book).value)
            then p == Step(s.(seqNo := s.seqNo + 1), [Rejected(c.key, MaxNotional)])
            else if !Banded(config, c, s.book) then p == Step(s.(seqNo := s.seqNo + 1), [Rejected(c.key, PriceBandViolation)])
            else p == Step(System(Apply(s.book, c).book, false, s.seqNo + 1), Apply(s.book, c).events)
  {
    hide Wf, PreApplyCheck, Matching.Apply, SlotFree, Valuation, Affordable, Banded;
    AdmissionIff(config, s, c);
  }

  /** With the switch on, new orders and amends that reprice or grow a resting order are refused with its reason, nothing else is. */
  lemma SwitchRefusesIff(config: RiskConfig, s: System, c: Command)
    requires s.killed
    ensures PreApplyCheck(config, true, c, s.book) ==
            if c.NewOrder? then Some(Rejected(c.key, KillSwitchActive))
            else if c.CancelReplace? && Rests(s.book, c.key)
                    && (c.newPrice != OrderOf(s.book, c.key).price || c.newQty > OrderOf(s.book, c.key).qty)
            then Some(Rejected(c.key, KillSwitchActive))
            else None
  {
    hide NewOrderCheck, Rests;
  }
}
