/** The event stream of a run, each event with the engine sequence of the command that caused it. */
module LiveStream {
  import opened Types
  import opened Matching
  import opened Risk
  import opened Runs
  import opened Routing

  datatype Stamp = Stamp(seqNo: nat, event: Event)

  function StampAll(seqNo: nat, events: seq<Event>): (xs: seq<Stamp>)
    ensures |xs| == |events| && forall i :: 0 <= i < |xs| ==> xs[i] == Stamp(seqNo, events[i])
  {
    seq(|events|, i requires 0 <= i < |events| => Stamp(seqNo, events[i]))
  }

  /** Everything a run emits; one engine sequence per command. */
  function Emitted(config: RiskConfig, s: System, cs: seq<Command>): seq<Stamp>
    decreases |cs|
  {
    if cs == [] then []
    else
      var p := Process(config, s, cs[0]);
      StampAll(p.system.seqNo, p.events) + Emitted(config, p.system, cs[1..])
  }

  /** The events carrying one engine sequence. */
  function EventsAt(xs: seq<Stamp>, seqNo: nat): seq<Event>
    decreases |xs|
  {
    if xs == [] then [] else EventIfAt(xs[0], seqNo) + EventsAt(xs[1..], seqNo)
  }

  function EventIfAt(x: Stamp, seqNo: nat): seq<Event> {
    if x.seqNo == seqNo then [x.event] else []
  }

  lemma {:induction false} EventsAtConcat(xs: seq<Stamp>, ys: seq<Stamp>, seqNo: nat)
    ensures EventsAt(xs + ys, seqNo) == EventsAt(xs, seqNo) + EventsAt(ys, seqNo)
    decreases |xs|
  {
    hide EventIfAt;
    if xs == [] {
      assert xs + ys == ys;
    } else {
      assert (xs + ys)[1..] == xs[1..] + ys && (xs + ys)[0] == xs[0];
      EventsAtConcat(xs[1..], ys, seqNo);
      assert (EventIfAt(xs[0], seqNo) + EventsAt(xs[1..], seqNo)) + EventsAt(ys, seqNo)
          == EventIfAt(xs[0], seqNo) + (EventsAt(xs[1..], seqNo) + EventsAt(ys, seqNo));
    }
  }

  lemma {:induction false} EventsAtStamped(own: nat, events: seq<Event>, seqNo: nat)
    ensures EventsAt(StampAll(own, events), seqNo) == if own == seqNo then events else []
    decreases |events|
  {
    if events != [] {
      assert StampAll(own, events)[1..] == StampAll(own, events[1..]);
      EventsAtStamped(own, events[1..], seqNo);
    }
  }

  lemma {:induction false} EventsAtAbsent(xs: seq<Stamp>, seqNo: nat, hi: nat)
    requires InStampOrder(xs, seqNo + 1, hi)
    ensures EventsAt(xs, seqNo) == []
    decreases |xs|
  {
    if xs != [] {
      EventsAtAbsent(xs[1..], seqNo, hi);
    }
  }

  lemma ProcessCounts(config: RiskConfig, s: System, c: Command)
    ensures Process(config, s, c).system.seqNo == s.seqNo + 1
  {
    hide PreApplyCheck, Apply;
  }

  /** Stamps within a range, never going back. */
  ghost predicate InStampOrder(xs: seq<Stamp>, lo: nat, hi: nat) {
    && (forall i :: 0 <= i < |xs| ==> lo <= xs[i].seqNo <= hi)
    && (forall i, j :: 0 <= i < j < |xs| ==> xs[i].seqNo <= xs[j].seqNo)
  }

  lemma StampOrderConcat(seqNo: nat, events: seq<Event>, xs: seq<Stamp>, hi: nat)
    requires InStampOrder(xs, seqNo + 1, hi) && seqNo <= hi
    ensures InStampOrder(StampAll(seqNo, events) + xs, seqNo, hi)
  {
  }

  lemma StampOrderNone(lo: nat, hi: nat)
    ensures InStampOrder([], lo, hi)
  {
  }

  lemma {:induction false} StampsAscend(config: RiskConfig, s: System, cs: seq<Command>)
    ensures InStampOrder(Emitted(config, s, cs), s.seqNo + 1, s.seqNo + |cs|)
    decreases |cs|
  {
    hide Process, InStampOrder;
    if cs == [] {
      StampOrderNone(s.seqNo + 1, s.seqNo);
    } else {
      var p := Process(config, s, cs[0]);
      ProcessCounts(config, s, cs[0]);
      StampsAscend(config, p.system, cs[1..]);
      StampOrderConcat(p.system.seqNo, p.events, Emitted(config, p.system, cs[1..]), s.seqNo + |cs|);
    }
  }

  lemma {:induction false} EventsOfCommand(config: RiskConfig, s: System, cs: seq<Command>, k: nat)
    requires k < |cs|
    ensures EventsAt(Emitted(config, s, cs), s.seqNo + k + 1) == Process(config, Run(config, s, cs[..k]).system, cs[k]).events
    decreases |cs|
  {
    hide Process, EventsAt, InStampOrder;
    var p := Process(config, s, cs[0]);
    var rest := Emitted(config, p.system, cs[1..]);
    var at := s.seqNo + k + 1;
    ProcessCounts(config, s, cs[0]);
    EventsAtConcat(StampAll(p.system.seqNo, p.events), rest, at);
    EventsAtStamped(p.system.seqNo, p.events, at);
    if k == 0 {
      StampsAscend(config, p.system, cs[1..]);
      EventsAtAbsent(rest, at, p.system.seqNo + |cs[1..]|);
      assert cs[..0] == [];
    } else {
      EventsOfCommand(config, p.system, cs[1..], k - 1);
      assert cs[..k][1..] == cs[1..][..k - 1] && cs[..k][0] == cs[0];
      assert [] + EventsAt(rest, at) == EventsAt(rest, at);
    }
  }

  /**
   * The k-th command (from 1) of every run owns engine sequence k: the events stamped k are exactly what that
   * command emitted, a lone rejection included, and stamps run from 1 to the number of commands in order.
   */
  lemma EngineSeqPerCommand(config: RiskConfig, cs: seq<Command>, k: nat)
    requires 0 < k <= |cs|
    ensures var xs := Emitted(config, START, cs);
            var s := Run(config, START, cs[..k - 1]).system;
            && s.seqNo == k - 1
            && EventsAt(xs, k) == Process(config, s, cs[k - 1]).events
            && (PreApplyCheck(config, s.killed, cs[k - 1], s.book).Some? ==>
                  EventsAt(xs, k) == [PreApplyCheck(config, s.killed, cs[k - 1], s.book).value])
            && InStampOrder(xs, 1, |cs|)
  {
    hide PreApplyCheck, Apply, Emitted, Run, EventsAt;
    EventsOfCommand(config, START, cs, k - 1);
    RunCounts(config, START, cs[..k - 1]);
    StampsAscend(config, START, cs);
  }

  lemma {:induction false} RunCounts(config: RiskConfig, s: System, cs: seq<Command>)
    ensures Run(config, s, cs).system.seqNo == s.seqNo + |cs|
    decreases |cs|
  {
    hide PreApplyCheck, Apply;
    if cs != [] {
      RunCounts(config, Process(config, s, cs[0]).system, cs[1..]);
    }
  }

  // ---- The two outbound streams ----

  function ReportOf(x: Stamp): seq<Stamp> {
    if IsMarketData(x.event) then [] else [x]
  }

  function PublishOf(x: Stamp): seq<Event> {
    if IsMarketData(x.event) then [x.event] else []
  }

  function Reports(xs: seq<Stamp>): seq<Stamp>
    decreases |xs|
  {
    if xs == [] then [] else ReportOf(xs[0]) + Reports(xs[1..])
  }

  function Published(xs: seq<Stamp>): seq<Event>
    decreases |xs|
  {
    if xs == [] then [] else PublishOf(xs[0]) + Published(xs[1..])
  }

  lemma {:induction false} ReportsConcat(xs: seq<Stamp>, ys: seq<Stamp>)
    ensures Reports(xs + ys) == Reports(xs) + Reports(ys)
    decreases |xs|
  {
    hide ReportOf;
    if xs == [] {
      assert xs + ys == ys;
    } else {
      assert (xs + ys)[1..] == xs[1..] + ys && (xs + ys)[0] == xs[0];
      ReportsConcat(xs[1..], ys);
      assert (ReportOf(xs[0]) + Reports(xs[1..])) + Reports(ys) == ReportOf(xs[0]) + (Reports(xs[1..]) + Reports(ys));
    }
  }

  lemma {:induction false} PublishedConcat(xs: seq<Stamp>, ys: seq<Stamp>)
    ensures Published(xs + ys) == Published(xs) + Published(ys)
    decreases |xs|
  {
    hide PublishOf;
    if xs == [] {
      assert xs + ys == ys;
    } else {
      assert (xs + ys)[1..] == xs[1..] + ys && (xs + ys)[0] == xs[0];
      PublishedConcat(xs[1..], ys);
      assert (PublishOf(xs[0]) + Published(xs[1..])) + Published(ys) == PublishOf(xs[0]) + (Published(xs[1..]) + Published(ys));
    }
  }

  lemma StreamsOne(x: Stamp)
    ensures Reports([x]) == if IsMarketData(x.event) then [] else [x]
    ensures Published([x]) == if IsMarketData(x.event) then [x.event] else []
  {
    assert [x][1..] == [];
  }
}
