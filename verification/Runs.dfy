/** Runs: any sequence of commands through the gate, from any state. */
module Runs {
  import opened Types
  import opened Queues
  import opened BookViews
  import opened Matching
  import opened Arenas
  import opened Risk

  predicate AllWellFormed(cs: seq<Command>) {
    forall i :: 0 <= i < |cs| ==> WellFormed(cs[i])
  }

  /** Quantities are 64-bit values. */
  predicate Sized(cs: seq<Command>) {
    forall i :: 0 <= i < |cs| && cs[i].NewOrder? ==> cs[i].qty <= U64_MAX
  }

  /** The state after a run and every event it emitted, in order. */
  function Run(config: RiskConfig, s: System, cs: seq<Command>): Step
    decreases |cs|
  {
    if cs == [] then Step(s, [])
    else
      var p := Process(config, s, cs[0]);
      var r := Run(config, p.system, cs[1..]);
      Step(r.system, p.events + r.events)
  }

  /** Some command of the run stops the thread that runs it. */
  ghost predicate Stalled(config: RiskConfig, s: System, cs: seq<Command>)
    decreases |cs|
  {
    cs != [] && (Stalls(s.book, cs[0]) || Stalled(config, Process(config, s, cs[0]).system, cs[1..]))
  }

  function Resting(b: BookView): nat {
    |b.bids| + |b.asks|
  }

  predicate HasSlot(b: BookView, c: Command) {
    TakesSlot(c) ==> Resting(b) < NULL
  }

  /** Fewer orders than there are slot numbers rest before each command of the run that may take a slot. */
  ghost predicate Roomy(config: RiskConfig, s: System, cs: seq<Command>)
    decreases |cs|
  {
    cs != [] ==> HasSlot(s.book, cs[0]) && Roomy(config, Process(config, s, cs[0]).system, cs[1..])
  }

  /** That is a bound on every prefix of the run, not on its length. */
  lemma {:induction false} RoomyIff(config: RiskConfig, s: System, cs: seq<Command>)
    ensures Roomy(config, s, cs) <==> forall k :: 0 <= k < |cs| ==> HasSlot(Run(config, s, cs[..k]).system.book, cs[k])
    decreases |cs|
  {
    hide Process, HasSlot;
    if cs != [] {
      var s1 := Process(config, s, cs[0]).system;
      RoomyIff(config, s1, cs[1..]);
      assert cs[..0] == [];
      forall k | 0 < k < |cs|
        ensures Run(config, s, cs[..k]).system == Run(config, s1, cs[1..][..k - 1]).system
      {
        assert cs[..k][1..] == cs[1..][..k - 1] && cs[..k][0] == cs[0];
      }
      if Roomy(config, s, cs) {
        forall k | 0 <= k < |cs|
          ensures HasSlot(Run(config, s, cs[..k]).system.book, cs[k])
        {
          assert k > 0 ==> HasSlot(Run(config, s1, cs[1..][..k - 1]).system.book, cs[1..][k - 1]);
        }
      }
      if forall k :: 0 <= k < |cs| ==> HasSlot(Run(config, s, cs[..k]).system.book, cs[k]) {
        assert HasSlot(Run(config, s, cs[..0]).system.book, cs[0]);
        forall k | 0 <= k < |cs[1..]|
          ensures HasSlot(Run(config, s1, cs[1..][..k]).system.book, cs[1..][k])
        {
          assert HasSlot(Run(config, s, cs[..k + 1]).system.book, cs[k + 1]);
        }
      }
    }
  }

  lemma ProcessWf(config: RiskConfig, s: System, c: Command)
    requires Wf(s.book) && WellFormed(c)
    ensures Wf(Process(config, s, c).system.book)
  {
    hide Wf, Apply, PreApplyCheck;
    ApplyWf(s.book, c);
  }

  lemma {:induction false} RunWf(config: RiskConfig, s: System, cs: seq<Command>)
    requires Wf(s.book) && AllWellFormed(cs)
    ensures Wf(Run(config, s, cs).system.book)
    decreases |cs|
  {
    hide Wf, Process;
    if cs != [] {
      ProcessWf(config, s, cs[0]);
      RunWf(config, Process(config, s, cs[0]).system, cs[1..]);
    }
  }

  /** After every command of every run, the best bid is strictly below the best ask and no quantity is zero. */
  lemma NeverCrossed(config: RiskConfig, cs: seq<Command>)
    requires AllWellFormed(cs)
    ensures var b := Run(config, START, cs).system.book;
            && (b.bids != [] && b.asks != [] ==> b.bids[0].price < b.asks[0].price)
            && (forall i, j :: 0 <= i < j < |b.bids| ==> b.bids[i].price >= b.bids[j].price)
            && (forall i, j :: 0 <= i < j < |b.asks| ==> b.asks[i].price <= b.asks[j].price)
            && (forall s, i :: 0 <= i < |Queue(b, s)| ==> Queue(b, s)[i].qty > 0)
  {
    EmptyWf();
    RunWf(config, START, cs);
  }

  /** A run of a concatenation is a run of the parts. */
  lemma {:induction false} RunConcat(config: RiskConfig, s: System, xs: seq<Command>, ys: seq<Command>)
    ensures var p := Run(config, s, xs);
            var r := Run(config, p.system, ys);
            Run(config, s, xs + ys) == Step(r.system, p.events + r.events)
    decreases |xs|
  {
    hide Process;
    if xs == [] {
      assert xs + ys == ys;
    } else {
      assert (xs + ys)[1..] == xs[1..] + ys;
      RunConcat(config, Process(config, s, xs[0]).system, xs[1..], ys);
    }
  }
}
