/** What the risk gate admits: the band's exact edges, its reference price, and how the kill switch narrows it. */
module Gate {
  import opened Types
  import opened Queues
  import opened BookViews
  import opened Matching
  import opened Risk
  import opened Runs
  import opened Shadows

  /** In hundredths of a tick: the upper edge is exact, the lower edge is rounded down by less than one tick. */
  lemma BandEdges(config: RiskConfig, reference: Price, p: Price)
    ensures InBand(config, reference, p) <==>
            reference * (100 - config.priceBandPct) < 100 * p + 100 && 100 * p <= reference * (100 + config.priceBandPct)
  {
    hide InBand;
    var low, high := reference * (100 - config.priceBandPct), reference * (100 + config.priceBandPct);
    InBandIs(config, reference, p, low, high);
    Hundredths(low, p);
    Hundredths(high, p);
  }

  lemma InBandIs(config: RiskConfig, reference: Price, p: Price, low: nat, high: nat)
    requires low == reference * (100 - config.priceBandPct) && high == reference * (100 + config.priceBandPct)
    ensures InBand(config, reference, p) <==> low / 100 <= p <= high / 100
  {
  }

  lemma Hundredths(x: nat, p: nat)
    ensures x / 100 <= p <==> x < 100 * p + 100
    ensures p <= x / 100 <==> 100 * p <= x
  {
    assert x == 100 * (x / 100) + x % 100;
  }

  /** The gate's 128-bit sum is the true one exactly while that fits; a stored notional that wrapped gives the same sum. */
  lemma GateSumIff(held: nat, incoming: nat)
    ensures GateSum(held, incoming) == held + incoming <==> held + incoming < W128
    ensures GateSum(held % W128, incoming) == GateSum(held, incoming)
  {
    Residue(held, incoming);
    if held + incoming < W128 {
      assert (held + incoming) % W128 == held + incoming;
    }
  }

  lemma Residue(x: nat, y: nat)
    ensures (x % W128 + y) % W128 == (x + y) % W128
  {
    var k := x / W128;
    assert x == k * W128 + x % W128;
    Wraps(x % W128 + y, k);
  }

  lemma {:induction false} Wraps(x: nat, k: nat)
    ensures (k * W128 + x) % W128 == x % W128
    decreases k
  {
    if k > 0 {
      Wraps(x, k - 1);
      assert k * W128 + x == ((k - 1) * W128 + x) + W128;
      assert ((k - 1) * W128 + x + W128) % W128 == ((k - 1) * W128 + x) % W128;
    }
  }

  /** The gate's notional verdict on an order is the true one unless the sum wraps to a value within the cap. */
  lemma NotionalVerdictIff(config: RiskConfig, held: nat, incoming: nat)
    ensures (GateSum(held, incoming) > config.maxNotional <==> held + incoming > config.maxNotional)
            <==> held + incoming < W128 || (held + incoming) % W128 > config.maxNotional
  {
    if held + incoming < W128 {
      assert (held + incoming) % W128 == held + incoming;
    }
  }

  /** The 64-bit mid is the true mid, and lies in the spread, exactly when the sum of the prices does not wrap. */
  lemma MidExactIff(bid: Price, ask: Price)
    requires bid < ask
    ensures Mid(bid, ask) == (bid + ask) / 2 <==> bid + ask <= U64_MAX
    ensures bid <= Mid(bid, ask) < ask <==> bid + ask <= U64_MAX
  {
    var w := 0x1_0000_0000_0000_0000;
    if bid + ask <= U64_MAX {
      assert (bid + ask) % w == bid + ask;
    } else {
      assert (bid + ask) % w == bid + ask - w;
    }
  }

  /**
   * Without a last trade a reference exists exactly on a two-sided book, and the band is centred inside the spread
   * if and only if best bid and best ask add up within 64 bits.
   */
  lemma ReferenceInSpreadIff(b: BookView)
    requires Wf(b) && b.lastTrade.None?
    ensures BandReference(b).Some? <==> b.bids != [] && b.asks != []
    ensures BandReference(b).Some? ==>
              (b.bids[0].price <= BandReference(b).value < b.asks[0].price <==> b.bids[0].price + b.asks[0].price <= U64_MAX)
    ensures BandReference(b).Some? ==>
              (BandReference(b).value == (b.bids[0].price + b.asks[0].price) / 2
               <==> b.bids[0].price + b.asks[0].price <= U64_MAX)
  {
    hide Rostered, Sorted, Unique, Disjoint, Positive, Mid;
    if b.bids != [] && b.asks != [] {
      assert b.bids[0].price < b.asks[0].price;
      MidExactIff(b.bids[0].price, b.asks[0].price);
    }
  }

  /** A touch price is in band of the mid exactly when its distance from the mid is within the percentage. */
  lemma TouchInBandIff(config: RiskConfig, b: BookView)
    requires Wf(b) && b.lastTrade.None? && b.bids != [] && b.asks != [] && b.bids[0].price + b.asks[0].price <= U64_MAX
    ensures var mid := BandReference(b).value;
            && (InBand(config, mid, b.bids[0].price) <==> 100 * (mid - b.bids[0].price) < mid * config.priceBandPct + 100)
            && (InBand(config, mid, b.asks[0].price) <==> 100 * (b.asks[0].price - mid) <= mid * config.priceBandPct)
  {
    ReferenceInSpreadIff(b);
    hide Wf, InBand, Mid;
    var mid := BandReference(b).value;
    BelowReference(config, mid, b.bids[0].price);
    AboveReference(config, mid, b.asks[0].price);
  }

  lemma BelowReference(config: RiskConfig, reference: Price, p: Price)
    requires p <= reference
    ensures InBand(config, reference, p) <==> 100 * (reference - p) < reference * config.priceBandPct + 100
  {
    hide InBand;
    BandEdges(config, reference, p);
    Spread(reference, config.priceBandPct);
  }

  lemma AboveReference(config: RiskConfig, reference: Price, p: Price)
    requires reference <= p
    ensures InBand(config, reference, p) <==> 100 * (p - reference) <= reference * config.priceBandPct
  {
    hide InBand;
    BandEdges(config, reference, p);
    Spread(reference, config.priceBandPct);
  }

  lemma Spread(r: nat, pct: nat)
    requires pct <= 100
    ensures r * (100 - pct) == 100 * r - r * pct && r * (100 + pct) == 100 * r + r * pct
  {
  }

  /** Engaging the switch only ever narrows what is admitted, and it admits no command that adds exposure. */
  lemma KillOnlyNarrows(config: RiskConfig, c: Command, b: BookView)
    ensures PreApplyCheck(config, true, c, b).None? ==> PreApplyCheck(config, false, c, b).None?
    ensures PreApplyCheck(config, true, c, b).None? <==>
            !c.NewOrder? && (c.CancelReplace? && Rests(b, c.key) ==>
                               c.newPrice == OrderOf(b, c.key).price && c.newQty <= OrderOf(b, c.key).qty)
  {
    hide NewOrderCheck;
  }

  /** A refused command takes a sequence number, changes nothing but that, and gets one report, to its own order. */
  lemma RefusalChangesNothing(config: RiskConfig, s: System, c: Command)
    requires PreApplyCheck(config, s.killed, c, s.book).Some?
    ensures var p := Process(config, s, c);
            && p.system == s.(seqNo := s.seqNo + 1)
            && |p.events| == 1 && p.events[0].Rejected?
            && (c.NewOrder? || c.CancelReplace?) && p.events[0].key == c.key
  {
    hide Matching.Apply;
  }

  /** The commands of a run that the gate lets through. */
  function Admissions(config: RiskConfig, s: System, cs: seq<Command>): seq<Command>
    decreases |cs|
  {
    if cs == [] then []
    else
      var rest := Admissions(config, Process(config, s, cs[0]).system, cs[1..]);
      if PreApplyCheck(config, s.killed, cs[0], s.book).Some? then rest else [cs[0]] + rest
  }

  /** Two systems that differ in their sequence number only. */
  predicate Alike(s: System, u: System) {
    s.book == u.book && s.killed == u.killed
  }

  lemma ProcessAlike(config: RiskConfig, s: System, u: System, c: Command)
    requires Alike(s, u)
    ensures Alike(Process(config, s, c).system, Process(config, u, c).system)
    ensures PreApplyCheck(config, s.killed, c, s.book).Some? ==> Alike(Process(config, s, c).system, u)
  {
    RejectIsRejected(config, s.killed, c, s.book);
    hide Matching.Apply, PreApplyCheck;
  }

  lemma {:induction false} RunAlike(config: RiskConfig, s: System, u: System, cs: seq<Command>)
    requires Alike(s, u)
    ensures Alike(Run(config, s, cs).system, Run(config, u, Admissions(config, s, cs)).system)
    decreases |cs|
  {
    hide Process, PreApplyCheck, Alike;
    if cs != [] {
      var s1, u1 := Process(config, s, cs[0]).system, Process(config, u, cs[0]).system;
      var rest := Admissions(config, s1, cs[1..]);
      ProcessAlike(config, s, u, cs[0]);
      if PreApplyCheck(config, s.killed, cs[0], s.book).Some? {
        RunAlike(config, s1, u, cs[1..]);
      } else {
        RunAlike(config, s1, u1, cs[1..]);
        assert ([cs[0]] + rest)[1..] == rest;
      }
    }
  }

  /** Over every run, what the gate refuses leaves no trace: dropping those commands ends in the same book and switch. */
  lemma RefusalsLeaveNoTrace(config: RiskConfig, cs: seq<Command>)
    ensures var r := Run(config, START, cs).system;
            var u := Run(config, START, Admissions(config, START, cs)).system;
            r.book == u.book && r.killed == u.killed
  {
    hide Run, Admissions;
    RunAlike(config, START, START, cs);
  }
}
