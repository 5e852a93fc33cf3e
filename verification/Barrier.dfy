/**
 The reset barrier between two rounds of a campaign: the controller starts the next test when all
 consensus nodes have acknowledged. Crash nodes may acknowledge on their own timer, before or after
 the analyzer reports the finished test; all other nodes acknowledge the reset message.
 */
module Barrier {
  import opened Common

  // ----- the controller's counters

  datatype Counters = Counters(nodes: nat, reset: nat, crashReset: nat)

  /** The counters after an event, and whether the next test is started. */
  datatype Effect = Effect(counters: Counters, fires: bool)

  function Cleared(c: Counters): Effect {
    Effect(c.(reset := 0, crashReset := 0), true)
  }

  function Check(c: Counters): Effect {
    if c.nodes % U16_LIMIT == c.reset + c.crashReset then Cleared(c) else Effect(c, false)
  }

  /** An honest or dishonest node has reset. */
  function OnReset(c: Counters): Effect {
    Check(c.(reset := c.reset + 1))
  }

  /** A crash node has reset; when all nodes crashed they are only told to recover. */
  function OnCrash(c: Counters): Effect {
    var c' := c.(crashReset := c.crashReset + 1);
    if c'.nodes != c'.crashReset then Check(c') else Effect(c', false)
  }

  /** The analyzer has reported: either every node has already crashed, or a reset is broadcast. */
  function OnReport(c: Counters): Effect {
    if c.nodes % U16_LIMIT == c.crashReset then Cleared(c) else Effect(c, false)
  }

  /** The counters are 16-bit words, the number of nodes is not: an acknowledgement starts the next test exactly if
      the two counts then add up to the number of nodes modulo 65536, a report if the crash nodes already
      do; but a crash node that completes the crash count to the number of nodes never does. A start clears
      both counts. */
  lemma FiresExactly(c: Counters)
    ensures OnReset(c) == if c.nodes % 65536 == c.reset + 1 + c.crashReset then Effect(Counters(c.nodes, 0, 0), true)
                          else Effect(Counters(c.nodes, c.reset + 1, c.crashReset), false)
    ensures OnCrash(c) == if c.nodes != c.crashReset + 1 && c.nodes % 65536 == c.reset + c.crashReset + 1
                          then Effect(Counters(c.nodes, 0, 0), true)
                          else Effect(Counters(c.nodes, c.reset, c.crashReset + 1), false)
    ensures OnReport(c) == if c.nodes % 65536 == c.crashReset then Effect(Counters(c.nodes, 0, 0), true)
                           else Effect(c, false)
  {
  }

  // ----- one round, with the nodes

  /** `stopped` nodes have left their protocol loop and sent their acknowledgement, `acked` ones have
      been counted; `starts` counts the starts of the next test; `reportLast` records that the report
      found every acknowledgement counted. */
  datatype Round = Round(
    counters: Counters,
    nodes: set<nat>,
    crash: set<nat>,
    reported: bool,
    resetSent: bool,
    stopped: set<nat>,
    acked: set<nat>,
    starts: nat,
    reportLast: bool)

  datatype Event = Stop(n: nat) | CrashNow(n: nat) | Ack(n: nat) | Report

  predicate Enabled(r: Round, e: Event) {
    match e
    case Stop(n) => n in r.nodes && n !in r.stopped && r.resetSent
    case CrashNow(n) => n in r.crash && n !in r.stopped
    case Ack(n) => n in r.stopped && n !in r.acked
    case Report => !r.reported
  }

  function Count(r: Round, x: Effect): Round {
    r.(counters := x.counters, starts := if x.fires then r.starts + 1 else r.starts)
  }

  function Next(r: Round, e: Event): Round {
    match e
    case Stop(n) => r.(stopped := r.stopped + {n})
    case CrashNow(n) => r.(stopped := r.stopped + {n})
    case Ack(n) =>
      Count(r, if n in r.crash then OnCrash(r.counters) else OnReset(r.counters)).(acked := r.acked + {n})
    case Report =>
      var x := OnReport(r.counters);
      Count(r, x).(reported := true, resetSent := !x.fires, reportLast := r.acked == r.nodes)
  }

  /** Each protocol run of a node ends in exactly one acknowledgement, so a round starts with all
      nodes running and the counters cleared. */
  ghost predicate Init(r: Round) {
    && |r.nodes| < U16_LIMIT && r.crash <= r.nodes
    && r.counters == Counters(|r.nodes|, 0, 0)
    && !r.reported && !r.resetSent && r.stopped == {} && r.acked == {} && r.starts == 0 && !r.reportLast
  }

  /** The state after any interleaving of enabled events. */
  ghost predicate Reaches(r: Round, es: seq<Event>, r': Round)
    decreases |es|
  {
    if es == [] then r == r'
    else Enabled(r, es[0]) && Reaches(Next(r, es[0]), es[1..], r')
  }

  // ----- what every event keeps

  ghost predicate Inv(r: Round) {
    && |r.nodes| < U16_LIMIT && r.crash <= r.nodes
    && r.acked <= r.stopped <= r.nodes
    && (r.resetSent ==> r.reported)
    && (r.stopped - r.crash != {} ==> r.resetSent)
    && r.counters.nodes == |r.nodes|
    && r.starts <= 1
    && (r.starts == 1 ==> r.acked == r.nodes && r.reported && r.counters.reset == r.counters.crashReset == 0)
    && (r.starts == 0 ==>
          && r.counters.reset == |r.acked - r.crash| && r.counters.crashReset == |r.acked * r.crash|
          && (r.reported ==> r.resetSent))
    && (r.reportLast ==> r.reported && r.starts == 1)
    && (r.reported && r.acked == r.nodes && r.crash != r.nodes ==> r.starts == 1)
    && (r.crash == r.nodes && r.starts == 1 ==> r.reportLast)
  }

  lemma Split(a: set<nat>, b: set<nat>)
    ensures |a| == |a - b| + |a * b|
  {
    assert a == (a - b) + (a * b);
  }

  /** Where the sum of the two counts is the number of nodes, all nodes have acknowledged. */
  lemma AckedAll(acked: set<nat>, crash: set<nat>, nodes: set<nat>)
    requires acked <= nodes && crash <= nodes
    ensures |acked - crash| + |acked * crash| == |nodes| <==> acked == nodes
    ensures |acked * crash| == |nodes| <==> acked == nodes && crash == nodes
  {
    Split(acked, crash);
    if |acked| == |nodes| {
      SubsetEqual(acked, nodes);
    }
    if |acked * crash| == |nodes| {
      SubsetEqual(acked * crash, nodes);
    }
    if acked == nodes && crash == nodes {
      assert acked * crash == nodes;
    }
  }

  /** An acknowledgement that completes the sum completes the set. */
  lemma AckCounts(r: Round, n: nat)
    requires Inv(r) && Enabled(r, Ack(n))
    ensures var acked := r.acked + {n};
      && |acked - r.crash| == r.counters.reset + (if n in r.crash then 0 else 1)
      && |acked * r.crash| == r.counters.crashReset + (if n in r.crash then 1 else 0)
      && (|acked - r.crash| + |acked * r.crash| == |r.nodes| <==> acked == r.nodes)
      && (|acked * r.crash| == |r.nodes| <==> acked == r.nodes && r.crash == r.nodes)
  {
    var acked := r.acked + {n};
    assert r.starts == 0;
    AckedAll(acked, r.crash, r.nodes);
    if n in r.crash {
      assert acked - r.crash == r.acked - r.crash;
      assert acked * r.crash == r.acked * r.crash + {n};
    } else {
      assert acked - r.crash == (r.acked - r.crash) + {n};
      assert acked * r.crash == r.acked * r.crash;
    }
  }

  lemma AckKeeps(r: Round, n: nat)
    requires Inv(r) && Enabled(r, Ack(n))
    ensures Inv(Next(r, Ack(n)))
  {
    AckCounts(r, n);
    SubsetSize((r.acked + {n}) * r.crash, r.nodes);
    if n in r.crash && r.reported {
      assert r.resetSent;
    }
  }

  lemma SubsetEqual(a: set<nat>, b: set<nat>)
    requires a <= b && |a| == |b|
    ensures a == b
  {
    assert b == a + (b - a);
  }

  lemma ReportKeeps(r: Round)
    requires Inv(r) && Enabled(r, Report)
    ensures Inv(Next(r, Report))
  {
    forall n | n in r.acked ensures n in r.crash {
      assert n !in r.stopped - r.crash;
    }
    assert r.acked * r.crash == r.acked && r.acked - r.crash == {};
    if |r.acked| == |r.nodes| {
      SubsetEqual(r.acked, r.nodes);
    }
  }

  lemma NextKeeps(r: Round, e: Event)
    requires Inv(r) && Enabled(r, e)
    ensures Inv(Next(r, e))
  {
    match e
    case Stop(n) =>
    case CrashNow(n) =>
      assert (r.stopped + {n}) - r.crash == r.stopped - r.crash;
    case Ack(n) => AckKeeps(r, n);
    case Report => ReportKeeps(r);
  }

  lemma {:induction false} ReachesInv(r: Round, es: seq<Event>, r': Round)
    requires Inv(r) && Reaches(r, es, r')
    ensures Inv(r')
    decreases |es|
  {
    if es != [] {
      NextKeeps(r, es[0]);
      ReachesInv(Next(r, es[0]), es[1..], r');
    }
  }

  /** Over every interleaving the next test starts at most once, only after the report and after every
      node has acknowledged, and with the counters as a round needs them at its start. */
  lemma {:induction false} BarrierSafe(r: Round, es: seq<Event>, r': Round)
    requires Init(r) && Reaches(r, es, r')
    ensures r'.starts <= 1
    ensures r'.starts == 1 ==> r'.acked == r'.nodes && r'.reported && r'.counters == Counters(|r'.nodes|, 0, 0)
  {
    ReachesInv(r, es, r');
  }

  /** A round in which nothing more can happen has seen the report and every acknowledgement, and
      the next test was started exactly if some node is not a crash node or the report came last. */
  lemma {:induction false} BarrierOpens(r: Round, es: seq<Event>, r': Round)
    requires Init(r) && Reaches(r, es, r')
    requires forall e :: !Enabled(r', e)
    ensures r'.reported && r'.acked == r'.nodes
    ensures r'.starts == 1 <==> r'.crash != r'.nodes || r'.reportLast
  {
    ReachesInv(r, es, r');
    assert !Enabled(r', Report);
    forall n | n in r'.nodes ensures n in r'.acked {
      assert !Enabled(r', Ack(n)) && !Enabled(r', Stop(n)) && !Enabled(r', CrashNow(n));
    }
  }

  function Remaining(r: Round): int {
    2 * |r.nodes| - |r.stopped| - |r.acked| + (if r.reported then 0 else 1)
  }

  /** Every event uses up one of the 2n+1 events of a round. */
  lemma RoundIsFinite(r: Round, e: Event)
    requires Inv(r) && Enabled(r, e)
    ensures 0 <= Remaining(Next(r, e)) == Remaining(r) - 1
  {
    NextKeeps(r, e);
    SubsetSize(r.stopped, r.nodes);
    SubsetSize(r.acked, r.nodes);
    SubsetSize(Next(r, e).stopped, r.nodes);
    SubsetSize(Next(r, e).acked, r.nodes);
  }

  /** When every node is a crash node and the report precedes the last acknowledgement, the next test
      is never started: one node, report first. */
  lemma AllCrashStalls()
    ensures var r := Round(Counters(1, 0, 0), {0}, {0}, false, false, {}, {}, 0, false);
      var r' := Next(Next(Next(r, Report), CrashNow(0)), Ack(0));
      && Init(r) && Reaches(r, [Report, CrashNow(0), Ack(0)], r')
      && r'.acked == r'.nodes && r'.reported && r'.starts == 0
  {
    var r := Round(Counters(1, 0, 0), {0}, {0}, false, false, {}, {}, 0, false);
    var r1 := Next(r, Report);
    var r2 := Next(r1, CrashNow(0));
    var r3 := Next(r2, Ack(0));
    assert [Report, CrashNow(0), Ack(0)][1..] == [CrashNow(0), Ack(0)];
    assert [CrashNow(0), Ack(0)][1..] == [Ack(0)];
    assert [Ack(0)][1..] == [];
    assert Reaches(r3, [], r3);
    assert Reaches(r2, [Ack(0)], r3);
    assert Reaches(r1, [CrashNow(0), Ack(0)], r3);
  }
}
